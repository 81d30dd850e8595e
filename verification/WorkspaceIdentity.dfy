/** The workspace id kept in the `.env` file (agent/src/workspace.ts). */
module WorkspaceIdentity {
  import opened Options
  import opened Sequences
  import opened Texts
  import opened WorkspaceNames

  const KEY := "WORKSPACE_ID"

  /** What `.` does not match, and what `^` and `$` stop at with the m flag. */
  predicate IsLineEnd(c: char) {
    c == '\n' || c == '\r' || c == '\U{2028}' || c == '\U{2029}'
  }

  /** How many characters at the start are white space. */
  function Spaces(s: string): (n: nat)
    ensures n <= |s|
  {
    if s == "" || !IsSpace(s[0]) then 0 else 1 + Spaces(s[1..])
  }

  predicate Blank(s: string) {
    Spaces(s) == |s|
  }

  /** How far it is to the end of the line, for the m flag. */
  function LineLength(s: string): (n: nat)
    ensures n <= |s| && (n < |s| ==> IsLineEnd(s[n]))
  {
    if s == "" || IsLineEnd(s[0]) then 0 else 1 + LineLength(s[1..])
  }

  predicate StartsWithKey(s: string) {
    |KEY| <= |s| && s[..|KEY|] == KEY
  }

  /** Where `\s*WORKSPACE_ID\s*=` ends, when the text starts with it. */
  function Head(s: string): (r: Option<nat>)
    ensures r.Some? ==> r.value <= |s|
  {
    var i := Spaces(s);
    if !StartsWithKey(s[i..]) then None
    else
      var j := i + |KEY| + Spaces(s[i + |KEY|..]);
      if j < |s| && s[j] == '=' then Some(j + 1) else None
  }

  // ----- reading -----

  function NewlineAt(s: string): (n: nat)
    ensures n <= |s| && (n < |s| ==> s[n] == '\n')
  {
    if s == "" || s[0] == '\n' then 0 else 1 + NewlineAt(s[1..])
  }

  predicate HasNewline(s: string) {
    NewlineAt(s) < |s|
  }

  /** The first line, without its `\r?\n`. */
  function FirstLine(s: string): string {
    var n := NewlineAt(s);
    if n < |s| && n > 0 && s[n - 1] == '\r' then s[..n - 1] else s[..n]
  }

  function LaterLines(s: string): string {
    if HasNewline(s) then s[NewlineAt(s) + 1..] else ""
  }

  /** `raw.split(/\r?\n/)` */
  function EnvLines(s: string): seq<string>
    decreases |s|
  {
    [FirstLine(s)] + if HasNewline(s) then EnvLines(LaterLines(s)) else []
  }

  /** What `^\s*WORKSPACE_ID\s*=\s*(.*)\s*$` captures in a line. */
  function LineValue(line: string): Option<string> {
    match Head(line)
    case None => None
    case Some(h) =>
      var rest := line[h..][Spaces(line[h..])..];
      var n := LineLength(rest);
      if Blank(rest[n..]) then Some(rest[..n]) else None
  }

  function FirstValue(lines: seq<string>): Option<string> {
    if lines == [] then None
    else if LineValue(lines[0]).Some? then LineValue(lines[0])
    else FirstValue(lines[1..])
  }

  function ValueIn(text: string): Option<string> {
    FirstValue(EnvLines(text))
  }

  /** Trimmed, without a pair of quotes around it. */
  function ParseValue(raw: string): string {
    var trimmed := Trim(raw);
    if trimmed != "" && ((trimmed[0] == '"' && Last(trimmed) == '"') || (trimmed[0] == '\'' && Last(trimmed) == '\''))
    then if |trimmed| > 1 then trimmed[1..|trimmed| - 1] else ""
    else trimmed
  }

  function IdFrom(nfkd: string -> string, value: Option<string>): string {
    if value.Some? then Sanitize(nfkd, ParseValue(value.value)) else ""
  }

  function ReadId(nfkd: string -> string, file: Option<string>): string {
    if file.Some? then IdFrom(nfkd, ValueIn(file.value)) else ""
  }

  // ----- writing -----

  predicate IsMatch(s: string, p: nat) {
    p <= |s| && (p == 0 || IsLineEnd(s[p - 1])) && Head(s[p..]).Some?
  }

  /** The first match of `/^\s*WORKSPACE_ID\s*=.*$/m` from `p` on. */
  function FirstMatch(s: string, p: nat): (r: Option<nat>)
    requires p <= |s|
    ensures r.Some? ==> IsMatch(s, r.value)
    decreases |s| - p
  {
    if IsMatch(s, p) then Some(p) else if p == |s| then None else FirstMatch(s, p + 1)
  }

  function Entry(id: string): string {
    KEY + "=" + id
  }

  /** What follows a match: empty, or a line end and the rest. */
  function AfterMatch(s: string, p: nat): (r: string)
    requires IsMatch(s, p)
    ensures r == "" || IsLineEnd(r[0])
  {
    var tail := s[p..][Head(s[p..]).value..];
    tail[LineLength(tail)..]
  }

  function Separator(raw: string): string {
    if raw == "" || Last(raw) == '\n' then "" else "\n"
  }

  function Appended(raw: string, id: string): string {
    raw + Separator(raw) + Entry(id) + "\n"
  }

  function Replaced(raw: string, p: nat, id: string): string
    requires IsMatch(raw, p)
  {
    raw[..p] + Entry(id) + AfterMatch(raw, p)
  }

  /** The file after `persistWorkspaceId`. */
  function Persisted(file: Option<string>, id: string): string {
    if file.None? then Entry(id) + "\n"
    else
      match FirstMatch(file.value, 0)
      case Some(p) => Replaced(file.value, p, id)
      case None => Appended(file.value, id)
  }

  // ----- reading what was written -----

  lemma {:induction false} SpacesUnique(s: string, n: nat)
    requires n <= |s| && (forall i :: 0 <= i < n ==> IsSpace(s[i])) && (n < |s| ==> !IsSpace(s[n]))
    ensures Spaces(s) == n
  {
    if n > 0 {
      hide IsSpace;
      SpacesUnique(s[1..], n - 1);
    }
  }

  lemma {:induction false} NewlineUnique(s: string, n: nat)
    requires n <= |s| && (forall i :: 0 <= i < n ==> s[i] != '\n') && (n < |s| ==> s[n] == '\n')
    ensures NewlineAt(s) == n
  {
    if n > 0 {
      NewlineUnique(s[1..], n - 1);
    }
  }

  lemma {:induction false} LineLengthUnique(s: string, n: nat)
    requires n <= |s| && (forall i :: 0 <= i < n ==> !IsLineEnd(s[i])) && (n < |s| ==> IsLineEnd(s[n]))
    ensures LineLength(s) == n
  {
    if n > 0 {
      LineLengthUnique(s[1..], n - 1);
    }
  }

  lemma {:induction false} SpacesFacts(s: string)
    ensures forall i :: 0 <= i < Spaces(s) ==> IsSpace(s[i])
    ensures Spaces(s) < |s| ==> !IsSpace(s[Spaces(s)])
  {
    if s != "" && IsSpace(s[0]) {
      hide IsSpace;
      SpacesFacts(s[1..]);
    }
  }

  lemma {:induction false} NewlineFacts(s: string)
    ensures forall i :: 0 <= i < NewlineAt(s) ==> s[i] != '\n'
  {
    if s != "" && s[0] != '\n' {
      NewlineFacts(s[1..]);
    }
  }

  lemma NewlineFree(s: string, n: nat)
    requires n <= NewlineAt(s)
    ensures '\n' !in s[..n]
  {
    NewlineFacts(s);
  }

  lemma SpacesOf(a: string, b: string)
    ensures Spaces(a + b) == if Spaces(a) < |a| then Spaces(a) else |a| + Spaces(b)
  {
    hide IsSpace;
    SpacesFacts(a);
    SpacesFacts(b);
    var n := if Spaces(a) < |a| then Spaces(a) else |a| + Spaces(b);
    forall i | 0 <= i < n ensures IsSpace((a + b)[i]) {
      if i >= |a| {
        assert (a + b)[i] == b[i - |a|];
      }
    }
    SpacesUnique(a + b, n);
  }

  /** A head found in the first part of a text is found in the text. */
  lemma HeadInPrefix(a: string, b: string)
    requires Head(a).Some?
    ensures Head(a + b) == Head(a)
  {
    hide IsSpace, Spaces;
    var i := Spaces(a);
    SpacesOf(a, b);
    assert (a + b)[i..] == a[i..] + b;
    assert (a + b)[i..][..|KEY|] == a[i..][..|KEY|];
    assert (a + b)[i + |KEY|..] == a[i + |KEY|..] + b;
    SpacesOf(a[i + |KEY|..], b);
  }

  lemma ValueUnfold(s: string)
    ensures ValueIn(s) == if LineValue(FirstLine(s)).Some? then LineValue(FirstLine(s))
                          else if HasNewline(s) then ValueIn(LaterLines(s)) else None
  {
    hide LineValue, FirstLine;
    var lines := EnvLines(s);
    assert lines[0] == FirstLine(s);
    assert lines[1..] == if HasNewline(s) then EnvLines(LaterLines(s)) else [];
    assert FirstValue([]) == None;
  }

  lemma HeadlessLine(s: string)
    requires Head(s).None?
    ensures LineValue(FirstLine(s)) == None
  {
    hide Head;
    assert s == FirstLine(s) + s[|FirstLine(s)|..];
    if Head(FirstLine(s)).Some? {
      HeadInPrefix(FirstLine(s), s[|FirstLine(s)|..]);
    }
  }

  predicate NoneBefore(s: string, p: nat) {
    forall q :: 0 <= q < p ==> !IsMatch(s, q)
  }

  lemma {:induction false} FirstMatchFirst(s: string, p: nat)
    requires p <= |s| && NoneBefore(s, p)
    ensures FirstMatch(s, p).Some? ==> NoneBefore(s, FirstMatch(s, p).value)
    ensures FirstMatch(s, p).None? ==> NoneBefore(s, |s| + 1)
    decreases |s| - p
  {
    hide IsMatch;
    if !IsMatch(s, p) && p < |s| {
      FirstMatchFirst(s, p + 1);
    }
  }

  /** A text without its first line has its matches where they were. */
  lemma MatchShift(s: string, k: nat, q: nat)
    requires k < |s| && IsLineEnd(s[k])
    ensures IsMatch(s[k + 1..], q) <==> IsMatch(s, k + 1 + q)
  {
    hide Head;
    if q <= |s| - k - 1 {
      assert s[k + 1..][q..] == s[k + 1 + q..];
    }
  }

  lemma NoneBeforeShift(s: string, k: nat, p: nat)
    requires k < |s| && s[k] == '\n' && NoneBefore(s, p) && k < p
    ensures NoneBefore(s[k + 1..], p - k - 1)
  {
    hide IsMatch;
    var later := s[k + 1..];
    forall q | 0 <= q < p - k - 1 ensures !IsMatch(later, q) {
      MatchShift(s, k, q);
    }
  }

  lemma NoHead(s: string, p: nat)
    requires NoneBefore(s, p) && p > 0
    ensures Head(s).None?
  {
    assert s[0..] == s;
    assert !IsMatch(s, 0);
  }

  lemma EntryHead(id: string, more: string)
    ensures Head(Entry(id) + more) == Some(|KEY| + 1)
    ensures (Entry(id) + more)[|KEY| + 1..] == id + more
  {
    hide IsSpace, Spaces;
    var line := Entry(id) + more;
    assert line[0] == 'W' && line[|KEY|] == '=' && !IsSpace('W') && !IsSpace('=') by { NotSpaces(); }
    SpacesUnique(line, 0);
    assert line[0..] == line && line[..|KEY|] == KEY;
    SpacesUnique(line[|KEY|..], 0);
  }

  lemma NotSpaces()
    ensures !IsSpace('W') && !IsSpace('=')
  {
  }

  lemma EntryLine(id: string, more: string)
    requires SlugShaped(id) && (more == "" || IsLineEnd(more[0]))
    ensures LineValue(Entry(id) + more) == if Blank(more) then Some(id) else None
  {
    hide Blank, Spaces, Head, Entry, NoDoubleDash;
    EntryHead(id, more);
    assert id[0] in id;
    SlugCharFacts(id[0]);
    SpacesUnique(id + more, 0);
    forall i | 0 <= i < |id| ensures !IsLineEnd((id + more)[i]) {
      assert id[i] in id;
    }
    LineLengthUnique(id + more, |id|);
    assert (id + more)[0..] == id + more;
    assert (id + more)[|id|..] == more && (id + more)[..|id|] == id;
  }

  /** The entry sits at the start of a line as `readWorkspaceIdFromEnvFile` splits them, with only white
      space after it. */
  predicate Visible(raw: string, p: nat)
    requires IsMatch(raw, p)
  {
    (p == 0 || raw[p - 1] == '\n') && Blank(FirstLine(AfterMatch(raw, p)))
  }

  /** A text whose first line stays ahead of a change further down. */
  lemma LaterOnly(a: string, b: string, c: string)
    requires '\n' !in a
    ensures NewlineAt(a + "\n" + b) == |a|
    ensures FirstLine(a + "\n" + b) == FirstLine(a + "\n" + c)
    ensures LaterLines(a + "\n" + b) == b && HasNewline(a + "\n" + b)
  {
    NewlineUnique(a + "\n" + b, |a|);
    NewlineUnique(a + "\n" + c, |a|);
  }

  /** A change on the first line. */
  lemma SameLine(a: string, after: string)
    requires '\n' !in a && a != "" && Last(a) != '\r'
    ensures FirstLine(a + after) == a + FirstLine(after)
    ensures HasNewline(a + after) == HasNewline(after) && LaterLines(a + after) == LaterLines(after)
  {
    NewlineFacts(after);
    NewlineUnique(a + after, |a| + NewlineAt(after));
  }

  lemma EmptyValue(s: string)
    ensures !HasNewline(s) ==> ValueIn(LaterLines(s)) == None
  {
    ValueUnfold("");
  }

  /** No head starts in a part that ends with a line end and goes on with an entry, unless one did
      before. */
  lemma EntryMakesNoHead(pre: string, was: string, id: string, more: string)
    requires pre != "" && IsLineEnd(Last(pre)) && Head(was).Some? && Head(pre + was).None?
    ensures Head(pre + (Entry(id) + more)).None?
  {
    hide IsSpace, Spaces, StartsWithKey, Entry, IsLineEnd;
    var i := Spaces(pre);
    var entry := Entry(id) + more;
    if i == |pre| {
      AllSpaceBefore(pre, was);
      assert false;
    }
    SpacesOf(pre, was);
    SpacesOf(pre, entry);
    if StartsWithKey((pre + entry)[i..]) {
      KeyInside(pre, entry, i);
      KeyStays(pre, entry, was, i);
      var rest := pre[i + |KEY|..];
      assert (pre + entry)[i + |KEY|..] == rest + entry && (pre + was)[i + |KEY|..] == rest + was;
      SpacesOf(rest, entry);
      SpacesOf(rest, was);
      EntryStart(id, more);
    }
  }

  lemma EntryStart(id: string, more: string)
    ensures Spaces(Entry(id) + more) == 0 && (Entry(id) + more)[0] != '='
  {
  }

  lemma KeyAt(s: string, i: nat, j: nat)
    requires i <= |s| && StartsWithKey(s[i..]) && j < |KEY|
    ensures !IsLineEnd(s[i + j])
  {
    assert s[i + j] == s[i..][..|KEY|][j];
  }

  lemma KeyInside(pre: string, after: string, i: nat)
    requires i < |pre| && IsLineEnd(Last(pre)) && StartsWithKey((pre + after)[i..])
    ensures i + |KEY| < |pre|
  {
    hide IsLineEnd;
    if i + |KEY| >= |pre| {
      KeyAt(pre + after, i, |pre| - 1 - i);
      assert false;
    }
  }

  lemma KeyStays(pre: string, after: string, other: string, i: nat)
    requires i + |KEY| <= |pre|
    ensures StartsWithKey((pre + after)[i..]) == StartsWithKey((pre + other)[i..])
  {
    assert (pre + after)[i..][..|KEY|] == pre[i..i + |KEY|] == (pre + other)[i..][..|KEY|];
  }

  lemma {:induction false} AllSpaceBefore(pre: string, was: string)
    requires Spaces(pre) == |pre| && Head(was).Some?
    ensures Head(pre + was).Some?
  {
    hide IsSpace, Spaces, StartsWithKey;
    var n := Spaces(was);
    SpacesOf(pre, was);
    DropBoth(pre, was, n);
    DropBoth(pre, was, n + |KEY|);
    var j := n + |KEY| + Spaces(was[n + |KEY|..]);
    assert (pre + was)[|pre| + j] == was[j];
  }

  lemma DropBoth(a: string, b: string, n: nat)
    requires n <= |b|
    ensures (a + b)[|a| + n..] == b[n..]
  {
  }

  lemma {:induction false} ReplacedOnFirstLine(raw: string, p: nat, id: string)
    requires IsMatch(raw, p) && NoneBefore(raw, p) && SlugShaped(id) && p <= NewlineAt(raw)
    ensures LineValue(FirstLine(Replaced(raw, p, id))) == if Visible(raw, p) then Some(id) else None
    ensures HasNewline(Replaced(raw, p, id)) == HasNewline(AfterMatch(raw, p))
    ensures LaterLines(Replaced(raw, p, id)) == LaterLines(AfterMatch(raw, p))
  {
    hide Head, Blank, LineValue, FirstLine, LaterLines, HasNewline, NoneBefore, NoDoubleDash;
    var after := AfterMatch(raw, p);
    var a := raw[..p] + Entry(id);
    var more := FirstLine(after);
    NewlineFree(raw, p);
    EntryOneLine(raw[..p], id);
    SameLine(a, after);
    assert a + more == raw[..p] + (Entry(id) + more);
    FirstLinePrefix(after);
    if p == 0 {
      assert raw[..p] + (Entry(id) + more) == Entry(id) + more;
      EntryLine(id, more);
    } else {
      NoHead(raw, p);
      assert raw == raw[..p] + raw[p..];
      EntryMakesNoHead(raw[..p], raw[p..], id, more);
      NoValueWithoutHead(a + more);
    }
  }

  lemma EntryOneLine(pre: string, id: string)
    requires '\n' !in pre && SlugShaped(id)
    ensures '\n' !in pre + Entry(id) && Last(pre + Entry(id)) != '\r'
  {
    assert Last(pre + Entry(id)) == Last(id) && Last(id) in id;
    assert '\n' !in id;
    assert '\n' !in KEY + "=";
    assert pre + Entry(id) == pre + (KEY + "=") + id;
  }

  lemma FirstLinePrefix(s: string)
    requires s == "" || IsLineEnd(s[0])
    ensures FirstLine(s) == "" || IsLineEnd(FirstLine(s)[0])
  {
  }

  lemma NoValueWithoutHead(line: string)
    requires Head(line).None?
    ensures LineValue(line) == None
  {
  }

  /** Reading after an entry was replaced: the new id when the entry is visible, else whatever the lines
      after it say. */
  lemma {:induction false} ReadReplaced(raw: string, p: nat, id: string)
    requires IsMatch(raw, p) && NoneBefore(raw, p) && SlugShaped(id)
    ensures ValueIn(Replaced(raw, p, id))
         == if Visible(raw, p) then Some(id) else ValueIn(LaterLines(AfterMatch(raw, p)))
    decreases |raw|
  {
    hide NoneBefore, LineValue, EnvLines, FirstValue, ValueIn, Blank, Head, SlugShaped, FirstLine, LaterLines;
    var k := NewlineAt(raw);
    var new' := Replaced(raw, p, id);
    ValueUnfold(new');
    EmptyValue(AfterMatch(raw, p));
    if k < p {
      MatchLater(raw, k, p);
      LaterMatch(raw, k, p, id);
      ReadReplaced(raw[k + 1..], p - k - 1, id);
    } else {
      ReplacedOnFirstLine(raw, p, id);
    }
  }

  lemma NewlineEnds()
    ensures IsLineEnd('\n')
  {
  }

  /** A match after the first line: without that line it is the same match. */
  lemma MatchLater(raw: string, k: nat, p: nat)
    requires IsMatch(raw, p) && NoneBefore(raw, p) && k == NewlineAt(raw) && k < p
    ensures IsMatch(raw[k + 1..], p - k - 1) && NoneBefore(raw[k + 1..], p - k - 1)
    ensures AfterMatch(raw[k + 1..], p - k - 1) == AfterMatch(raw, p)
    ensures Visible(raw[k + 1..], p - k - 1) == Visible(raw, p)
  {
    hide Head, Blank, FirstLine, NoneBefore, LineLength, IsLineEnd, NewlineAt;
    assert IsLineEnd(raw[k]) by { NewlineEnds(); }
    MatchShift(raw, k, p - k - 1);
    NoneBeforeShift(raw, k, p);
    var later := raw[k + 1..];
    assert later[p - k - 1..] == raw[p..];
    assert p == k + 1 || later[p - k - 2] == raw[p - 1];
  }

  lemma CutAtNewline(s: string, k: nat)
    requires k < |s| && s[k] == '\n'
    ensures s == s[..k] + "\n" + s[k + 1..]
  {
    assert s == s[..k] + s[k..k + 1] + s[k + 1..];
  }

  lemma ReplacedText(raw: string, k: nat, p: nat, id: string)
    requires IsMatch(raw, p) && k < p && raw[k] == '\n' && IsMatch(raw[k + 1..], p - k - 1)
    requires AfterMatch(raw[k + 1..], p - k - 1) == AfterMatch(raw, p)
    ensures Replaced(raw, p, id) == raw[..k] + "\n" + Replaced(raw[k + 1..], p - k - 1, id)
  {
    hide Head, Entry, AfterMatch;
    var tail := Entry(id) + AfterMatch(raw, p);
    PrefixSplit(raw, k, p, tail);
    assert Replaced(raw, p, id) == raw[..p] + tail;
    assert Replaced(raw[k + 1..], p - k - 1, id) == raw[k + 1..][..p - k - 1] + tail;
  }

  /** And the line, which had no value, stays as it was. */
  lemma LaterMatch(raw: string, k: nat, p: nat, id: string)
    requires IsMatch(raw, p) && NoneBefore(raw, p) && k == NewlineAt(raw) && k < p
    ensures IsMatch(raw[k + 1..], p - k - 1)
    ensures LineValue(FirstLine(Replaced(raw, p, id))) == None
    ensures HasNewline(Replaced(raw, p, id))
    ensures LaterLines(Replaced(raw, p, id)) == Replaced(raw[k + 1..], p - k - 1, id)
  {
    hide Head, LineValue, FirstLine, NoneBefore, LaterLines, HasNewline;
    hide Replaced, AfterMatch, Visible, NewlineAt, IsLineEnd;
    MatchLater(raw, k, p);
    CutAtNewline(raw, k);
    NewlineFree(raw, k);
    ReplacedText(raw, k, p, id);
    LaterOnly(raw[..k], Replaced(raw[k + 1..], p - k - 1, id), raw[k + 1..]);
    NoHead(raw, p);
    HeadlessLine(raw);
  }

  lemma PrefixSplit(raw: string, k: nat, p: nat, tail: string)
    requires k < p <= |raw| && raw[k] == '\n'
    ensures raw[..p] + tail == raw[..k] + "\n" + (raw[k + 1..][..p - k - 1] + tail)
  {
    assert raw[..p] == raw[..k] + "\n" + raw[k + 1..][..p - k - 1];
  }

  // ----- appending -----

  lemma {:induction false} ReadAppended(raw: string, id: string)
    requires NoneBefore(raw, |raw| + 1) && SlugShaped(id)
    ensures ValueIn(Appended(raw, id)) == Some(id)
    decreases |raw|
  {
    hide NoneBefore, LineValue, EnvLines, FirstValue, ValueIn, Blank;
    hide Head, SlugShaped, FirstLine, LaterLines, HasNewline, Entry;
    var k := NewlineAt(raw);
    var new' := Appended(raw, id);
    ValueUnfold(new');
    if k < |raw| {
      AppendedLater(raw, k, id);
      ReadAppended(raw[k + 1..], id);
    } else if raw == "" {
      LastEntry(id);
      assert new' == Entry(id) + "\n";
    } else {
      LastEntry(id);
      NewlineFree(raw, k);
      assert raw[..k] == raw && Last(raw) in raw;
      assert new' == raw + "\n" + (Entry(id) + "\n");
      assert raw + "\n" + raw == raw + ("\n" + raw);
      LaterOnly(raw, Entry(id) + "\n", raw);
      NoHead(raw, |raw| + 1);
      ChoppedHeadless(raw, "\n" + (Entry(id) + "\n"));
      assert new' == raw + ("\n" + (Entry(id) + "\n"));
    }
  }

  lemma LastEntry(id: string)
    requires SlugShaped(id)
    ensures ValueIn(Entry(id) + "\n") == Some(id)
  {
    hide LineValue, EnvLines, FirstValue, ValueIn, NoDoubleDash;
    EntryOneLine("", id);
    assert "" + Entry(id) == Entry(id);
    SameLine(Entry(id), "\n");
    NewlineUnique("\n", 0);
    assert FirstLine("\n") == "";
    EntryLine(id, "");
    SpacesUnique("", 0);
    ValueUnfold(Entry(id) + "\n");
  }

  /** A line without a head has no value, also when a `\r` is taken off its end. */
  lemma ChoppedHeadless(a: string, after: string)
    requires Head(a).None? && '\n' !in a && after != "" && after[0] == '\n'
    ensures LineValue(FirstLine(a + after)) == None
  {
    hide Head;
    NewlineUnique(a + after, |a|);
    var line := FirstLine(a + after);
    assert a == line + a[|line|..];
    if Head(line).Some? {
      HeadInPrefix(line, a[|line|..]);
    }
  }

  lemma AppendedLater(raw: string, k: nat, id: string)
    requires NoneBefore(raw, |raw| + 1) && k == NewlineAt(raw) && k < |raw|
    ensures NoneBefore(raw[k + 1..], |raw| - k)
    ensures LineValue(FirstLine(Appended(raw, id))) == None
    ensures HasNewline(Appended(raw, id)) && LaterLines(Appended(raw, id)) == Appended(raw[k + 1..], id)
  {
    hide Head, LineValue, FirstLine, NoneBefore, LaterLines, HasNewline, Appended, NewlineAt, IsLineEnd;
    CutAtNewline(raw, k);
    NewlineFree(raw, k);
    NoneBeforeShift(raw, k, |raw| + 1);
    AppendedText(raw[..k], raw[k + 1..], id);
    LaterOnly(raw[..k], Appended(raw[k + 1..], id), raw[k + 1..]);
    NoHead(raw, |raw| + 1);
    HeadlessLine(raw);
  }

  lemma AppendedText(a: string, later: string, id: string)
    ensures Appended(a + "\n" + later, id) == a + "\n" + Appended(later, id)
  {
    var raw := a + "\n" + later;
    assert later == "" ==> Last(raw) == '\n';
    assert later != "" ==> Last(raw) == Last(later);
  }

  // ----- what reading gives after persisting -----

  /** The entry that persisting writes can be read back. */
  predicate Settles(nfkd: string -> string, file: Option<string>, id: string) {
    || file.None?
    || FirstMatch(file.value, 0).None?
    || Visible(file.value, FirstMatch(file.value, 0).value)
    || ReadId(nfkd, Some(LaterLines(AfterMatch(file.value, FirstMatch(file.value, 0).value)))) == id
  }

  lemma IdReadsAsItself(nfkd: string -> string, id: string)
    requires FixesAscii(nfkd) && IsId(id)
    ensures IdFrom(nfkd, Some(id)) == id
  {
    hide Sanitize, Trim;
    SlugTrimmed(id);
    assert id[0] in id;
    SanitizeGivesId(nfkd, id);
  }

  lemma PersistedValue(file: Option<string>, id: string)
    requires SlugShaped(id)
    ensures var m := if file.Some? then FirstMatch(file.value, 0) else None;
            (ValueIn(Persisted(file, id))
             == if m.None? || Visible(file.value, m.value) then Some(id)
                else ValueIn(LaterLines(AfterMatch(file.value, m.value))))
  {
    hide FirstMatch, ValueIn, Visible, AfterMatch, Replaced, Appended, SlugShaped, IsMatch, LaterLines;
    if file.None? {
      LastEntry(id);
    } else {
      FirstMatchFirst(file.value, 0);
      if FirstMatch(file.value, 0).Some? {
        ReadReplaced(file.value, FirstMatch(file.value, 0).value, id);
      } else {
        ReadAppended(file.value, id);
      }
    }
  }

  /** For every prior text: reading gives the persisted id back exactly when its entry is visible, or a
      later line happens to say the same. */
  lemma ReadAfterPersistIff(nfkd: string -> string, file: Option<string>, id: string)
    requires FixesAscii(nfkd) && IsId(id)
    ensures ReadId(nfkd, Some(Persisted(file, id))) == id <==> Settles(nfkd, file, id)
  {
    hide FirstMatch, ValueIn, Visible, AfterMatch, Persisted, IsId, LaterLines, IdFrom;
    assert SlugShaped(id) by { IdShaped(id); }
    PersistedValue(file, id);
    IdReadsAsItself(nfkd, id);
  }

  lemma IdShaped(id: string)
    requires IsId(id)
    ensures SlugShaped(id)
  {
  }

  // ----- line ends -----

  /** Only `\n` ends a line. */
  predicate LfOnly(s: string) {
    forall c :: c in s && IsLineEnd(c) ==> c == '\n'
  }

  lemma AfterIsSuffix(raw: string, p: nat)
    requires IsMatch(raw, p)
    ensures |AfterMatch(raw, p)| <= |raw| - p && AfterMatch(raw, p) == raw[|raw| - |AfterMatch(raw, p)|..]
  {
  }

  lemma LfIsVisible(raw: string, p: nat)
    requires IsMatch(raw, p) && LfOnly(raw)
    ensures Visible(raw, p)
  {
    hide Head, LineLength, IsSpace;
    AfterIsSuffix(raw, p);
    var after := AfterMatch(raw, p);
    assert p > 0 ==> raw[p - 1] in raw;
    if after != "" {
      assert after[0] in raw;
      NewlineUnique(after, 0);
    }
    assert FirstLine(after) == "";
  }

  /** With LF line ends an id is always read back. */
  lemma LfReadsBack(nfkd: string -> string, raw: string, id: string)
    requires FixesAscii(nfkd) && IsId(id) && LfOnly(raw)
    ensures ReadId(nfkd, Some(Persisted(Some(raw), id))) == id
  {
    hide FirstMatch, Visible, Persisted, IsId, ReadId, IsMatch;
    ReadAfterPersistIff(nfkd, Some(raw), id);
    if FirstMatch(raw, 0).Some? {
      LfIsVisible(raw, FirstMatch(raw, 0).value);
    }
  }

  predicate CrBefore(s: string, i: int) {
    0 < i < |s| && s[i - 1] == '\r'
  }

  predicate LfAfter(s: string, i: int) {
    0 <= i < |s| - 1 && s[i + 1] == '\n'
  }

  /** Lines end with `\r\n` and nothing else. */
  predicate CrlfOnly(s: string) {
    && (forall i :: 0 <= i < |s| && s[i] == '\n' ==> CrBefore(s, i))
    && (forall i :: 0 <= i < |s| && s[i] == '\r' ==> LfAfter(s, i))
    && (forall i :: 0 <= i < |s| && IsLineEnd(s[i]) ==> s[i] == '\n' || s[i] == '\r')
  }

  /** With CRLF line ends the written entry is visible exactly when only white space is before it: `^`
      also matches between `\r` and `\n`, so the `\n` before the entry is replaced with it. */
  lemma CrlfVisibleIff(raw: string, p: nat)
    requires IsMatch(raw, p) && NoneBefore(raw, p) && CrlfOnly(raw)
    ensures Visible(raw, p) <==> p == 0
  {
    hide Head, LineLength, IsSpace;
    AfterIsSuffix(raw, p);
    var after := AfterMatch(raw, p);
    var at := |raw| - |after|;
    if after != "" {
      assert raw[at] == after[0];
      if after[0] == '\r' {
        assert LfAfter(raw, at) && raw[at + 1] == after[1];
        NewlineUnique(after, 1);
      } else {
        NewlineUnique(after, 0);
      }
    }
    assert FirstLine(after) == "";
    if p > 0 && raw[p - 1] == '\n' {
      assert CrBefore(raw, p - 1);
      MatchTakesNewline(raw, p);
    }
  }

  lemma MatchTakesNewline(raw: string, p: nat)
    requires IsMatch(raw, p) && p > 1 && raw[p - 1] == '\n' && IsLineEnd(raw[p - 2])
    ensures IsMatch(raw, p - 1)
  {
    NewlineHead(raw[p..]);
    assert raw[p - 1..] == "\n" + raw[p..];
  }

  lemma MatchAt(s: string, p: nat)
    requires IsMatch(s, p) && NoneBefore(s, p)
    ensures FirstMatch(s, 0) == Some(p)
  {
    hide Head, FirstMatch;
    FirstMatchFirst(s, 0);
    if FirstMatch(s, 0).Some? {
      assert IsMatch(s, FirstMatch(s, 0).value);
    }
  }

  /** A file whose only entry comes after a CRLF line: the match takes the `\n` with it. */
  lemma CrlfMatch(was: string)
    requires SlugShaped(was)
    ensures IsMatch("A=1\r\n" + Entry(was), 4) && NoneBefore("A=1\r\n" + Entry(was), 4)
    ensures AfterMatch("A=1\r\n" + Entry(was), 4) == ""
  {
    hide Entry, NoDoubleDash, Head;
    var raw := "A=1\r\n" + Entry(was);
    EntryHead(was, "");
    assert Entry(was) + "" == Entry(was) && was + "" == was;
    assert raw[4..] == "\n" + Entry(was);
    NewlineHead(Entry(was));
    assert raw[0] == 'A' && raw[1] == '=' && raw[2] == '1' && raw[3] == '\r';
    NoHeadAfterA("=1\r\n" + Entry(was));
    assert raw[0..] == "A" + ("=1\r\n" + Entry(was));
    AfterEntry(raw, was);
  }

  lemma AfterEntry(raw: string, was: string)
    requires IsMatch(raw, 4) && raw[4..] == "\n" + Entry(was) && SlugShaped(was)
    requires Head(raw[4..]) == Some(|KEY| + 2)
    ensures AfterMatch(raw, 4) == ""
  {
    hide Head, NoDoubleDash;
    assert raw[4..][|KEY| + 2..] == was;
    forall i | 0 <= i < |was| ensures !IsLineEnd(was[i]) {
      assert was[i] in was;
    }
    LineLengthUnique(was, |was|);
  }

  lemma NewlineHead(s: string)
    requires Head(s).Some?
    ensures Head("\n" + s) == Some(Head(s).value + 1)
  {
    hide Spaces, StartsWithKey;
    OneNewline();
    SpacesOf("\n", s);
    var n := Spaces(s);
    DropBoth("\n", s, n);
    DropBoth("\n", s, n + |KEY|);
    var j := n + |KEY| + Spaces(s[n + |KEY|..]);
    assert ("\n" + s)[1 + j] == s[j];
  }

  lemma OneNewline()
    ensures Spaces("\n") == 1
  {
    assert IsSpace('\n');
  }

  lemma NoHeadAfterA(s: string)
    ensures Head("A" + s).None?
  {
    SpacesUnique("A" + s, 0);
  }

  /** Whatever id is written to such a file, reading finds none. */
  lemma CrlfLosesId(nfkd: string -> string, was: string, id: string)
    requires FixesAscii(nfkd) && SlugShaped(was) && IsId(id)
    ensures Persisted(Some("A=1\r\n" + Entry(was)), id) == "A=1\r" + Entry(id)
    ensures ReadId(nfkd, Some(Persisted(Some("A=1\r\n" + Entry(was)), id))) == ""
  {
    hide ValueIn, SlugShaped, Entry, FirstMatch, IsMatch, NoneBefore, AfterMatch, LaterLines, HasNewline;
    var raw := "A=1\r\n" + Entry(was);
    CrlfMatch(was);
    MatchAt(raw, 4);
    assert raw[..4] == "A=1\r";
    ReadReplaced(raw, 4, id);
    EmptyValue("");
    NewlineFree("", 0);
    assert !HasNewline("") by { EmptyHasNoNewline(); }
  }

  lemma EmptyHasNoNewline()
    ensures !HasNewline("")
  {
  }

  // ----- resolving -----

  /** What the folder name is looked for in, in order. */
  datatype Names = Names(vscode: Option<string>, configured: Option<string>, project: string, cwd: string)

  /** `resolveWorkspaceFolderName` */
  function FolderName(nfkd: string -> string, names: Names): string {
    var vscode := Sanitize(nfkd, Trim(names.vscode.GetOr("")));
    var configured := Sanitize(nfkd, Trim(names.configured.GetOr("")));
    var project := Sanitize(nfkd, Trim(names.project));
    var cwd := Sanitize(nfkd, Trim(names.cwd));
    if vscode != "" then vscode
    else if configured != "" then configured
    else if project != "" then project
    else if cwd != "" then cwd
    else "project"
  }

  function EnvironmentId(nfkd: string -> string, variable: Option<string>): string {
    Sanitize(nfkd, Trim(variable.GetOr("")))
  }

  /** The id of `resolveWorkspaceIdentity`. */
  function ResolveId(nfkd: string -> string, file: Option<string>, variable: Option<string>, names: Names): string {
    if ReadId(nfkd, file) != "" then ReadId(nfkd, file)
    else if EnvironmentId(nfkd, variable) != "" then EnvironmentId(nfkd, variable)
    else FolderName(nfkd, names)
  }

  lemma FolderNameIsId(nfkd: string -> string, names: Names)
    ensures IsId(FolderName(nfkd, names))
  {
    hide Sanitize, IsId;
    SanitizeGivesId(nfkd, Trim(names.vscode.GetOr("")));
    SanitizeGivesId(nfkd, Trim(names.configured.GetOr("")));
    SanitizeGivesId(nfkd, Trim(names.project));
    SanitizeGivesId(nfkd, Trim(names.cwd));
    ProjectShaped();
  }

  lemma ResolvedIsId(nfkd: string -> string, file: Option<string>, variable: Option<string>, names: Names)
    ensures IsId(ResolveId(nfkd, file, variable, names))
  {
    hide Sanitize, IsId, FolderName, ValueIn, ParseValue, Trim;
    FolderNameIsId(nfkd, names);
    SanitizeGivesId(nfkd, Trim(variable.GetOr("")));
    if file.Some? && ValueIn(file.value).Some? {
      SanitizeGivesId(nfkd, ParseValue(ValueIn(file.value).value));
    }
  }

  /** `id` is what resolving gives from now on, whatever the environment and the folders say. */
  ghost predicate Fixed(nfkd: string -> string, file: Option<string>, id: string) {
    forall variable, names :: ResolveId(nfkd, file, variable, names) == id
  }

  lemma AbShaped()
    ensures IsId("a") && IsId("b")
  {
  }

  lemma FixedIff(nfkd: string -> string, file: Option<string>, id: string)
    requires FixesAscii(nfkd) && id != ""
    ensures Fixed(nfkd, file, id) <==> ReadId(nfkd, file) == id
  {
    hide Sanitize, IsId, FolderName, ReadId, Trim, FixesAscii;
    if ReadId(nfkd, file) == "" {
      AbShaped();
      var other := if id == "a" then "b" else "a";
      SanitizeGivesId(nfkd, other);
      assert Trim(other) == other by { SlugTrimmed(other) by { IdShaped(other); } }
      assert ResolveId(nfkd, file, Some(other), Names(None, None, "", "")) == other;
    } else {
      assert ResolveId(nfkd, file, None, Names(None, None, "", "")) == ReadId(nfkd, file);
    }
  }

  /** Resolving writes an id that later resolving keeps, in any environment, exactly when the entry it
      wrote settles. */
  lemma ResolveIsFixpointIff(nfkd: string -> string, file: Option<string>, variable: Option<string>, names: Names)
    requires FixesAscii(nfkd)
    ensures var id := ResolveId(nfkd, file, variable, names);
            Fixed(nfkd, Some(Persisted(file, id)), id) <==> Settles(nfkd, file, id)
  {
    hide Sanitize, IsId, FolderName, ReadId, FixesAscii, Fixed, Settles, Persisted, ResolveId;
    var id := ResolveId(nfkd, file, variable, names);
    ResolvedIsId(nfkd, file, variable, names);
    IdShaped(id);
    ReadAfterPersistIff(nfkd, file, id);
    FixedIff(nfkd, Some(Persisted(file, id)), id);
  }

  /** A blank or missing variable already names the project: the folders are asked only when the
      variable holds a reserved name. */
  lemma FolderNameOnlyWhenReserved(nfkd: string -> string, file: Option<string>, variable: Option<string>, names: Names)
    requires FixesAscii(nfkd) && ReadId(nfkd, file) == ""
    ensures Trim(variable.GetOr("")) == "" ==> ResolveId(nfkd, file, variable, names) == "project"
    ensures EnvironmentId(nfkd, variable) == "" <==> Reserved(Slugify(nfkd, Trim(variable.GetOr(""))))
  {
    hide Slugify, Trim;
    SlugIsShaped(nfkd, Trim(variable.GetOr("")));
    if Trim(variable.GetOr("")) == "" {
      TrimEmpty();
      BlankIsProject(nfkd, "");
    }
  }

  lemma TrimEmpty()
    ensures Trim("") == ""
  {
  }

  // ----- what the id is -----

  /** The slug of a name. */
  function SlugOf(nfkd: string -> string, name: string): string {
    Dashes(nfkd(Trim(name)))
  }

  predicate Taken(slug: string) {
    slug == "app" || slug == "local" || slug == "workspace"
  }

  /** What is asked for a name, in order: the variable, the editor's folder, the configured name, the project's
      directory and the working directory. */
  function Candidates(variable: Option<string>, names: Names): seq<string> {
    [variable.GetOr(""), names.vscode.GetOr(""), names.configured.GetOr(""), names.project, names.cwd]
  }

  /** `id` is the slug of the first candidate whose slug is not taken, or "project". */
  predicate FirstFree(nfkd: string -> string, candidates: seq<string>, id: string) {
    if candidates == [] then id == "project"
    else if !Taken(SlugOf(nfkd, candidates[0])) then id == SlugOf(nfkd, candidates[0])
    else FirstFree(nfkd, candidates[1..], id)
  }

  lemma SanitizedIs(nfkd: string -> string, name: string)
    ensures Sanitize(nfkd, Trim(name)) == if Taken(SlugOf(nfkd, name)) then "" else SlugOf(nfkd, name)
    ensures Sanitize(nfkd, name) == Sanitize(nfkd, Trim(name))
    ensures SlugOf(nfkd, name) != ""
  {
    hide Trim, Dashes, Slugify;
    TrimTwice(name);
    LettersOfAre(nfkd(Trim(name)));
    SlugIs(nfkd, name, LettersOf(nfkd(Trim(name))));
    SlugIs(nfkd, Trim(name), LettersOf(nfkd(Trim(name))));
    SlugIsShaped(nfkd, name);
  }

  /** Without an id in the file, the id is that of the first candidate whose slug is free. */
  lemma ResolvedFirstFree(nfkd: string -> string, file: Option<string>, variable: Option<string>, names: Names)
    requires ReadId(nfkd, file) == ""
    ensures FirstFree(nfkd, Candidates(variable, names), ResolveId(nfkd, file, variable, names))
  {
    hide Sanitize, Trim, SlugOf, Taken;
    var c, id := Candidates(variable, names), ResolveId(nfkd, file, variable, names);
    SanitizedIs(nfkd, c[0]);
    SanitizedIs(nfkd, c[1]);
    SanitizedIs(nfkd, c[2]);
    SanitizedIs(nfkd, c[3]);
    SanitizedIs(nfkd, c[4]);
    assert FirstFree(nfkd, [], "project");
    assert c[4..][1..] == [] && c[3..][1..] == c[4..] && c[2..][1..] == c[3..] && c[1..][1..] == c[2..];
    assert c[4..][0] == c[4] && c[3..][0] == c[3] && c[2..][0] == c[2] && c[1..][0] == c[1];
    assert FirstFree(nfkd, c[4..], if Taken(SlugOf(nfkd, c[4])) then "project" else SlugOf(nfkd, c[4]));
    if Taken(SlugOf(nfkd, c[0])) {
      if Taken(SlugOf(nfkd, c[1])) {
        assert FirstFree(nfkd, c[3..], id) || !Taken(SlugOf(nfkd, c[2]));
        assert FirstFree(nfkd, c[2..], id);
      }
      assert FirstFree(nfkd, c[1..], id);
    }
  }

  /** What an entry's text means: its trimmed text, or what is between the quotes. */
  predicate Means(value: string, v: string) {
    var t := Trim(value);
    if t != "" && (t[0] == Last(t) == '"' || t[0] == Last(t) == '\'') then
      if |t| == 1 then v == "" else t == [t[0]] + v + [t[0]]
    else v == t
  }

  lemma ParsedMeans(value: string, v: string)
    ensures Means(value, v) <==> v == ParseValue(value)
  {
    hide Trim;
    var t := Trim(value);
    if |t| > 1 && (t[0] == Last(t) == '"' || t[0] == Last(t) == '\'') {
      assert t == [t[0]] + t[1..|t| - 1] + [t[0]];
      assert ([t[0]] + v + [t[0]])[1..|v| + 1] == v;
    }
  }

  /** An entry on a line of its own names the id that its text, without its quotes, slugs to; a taken one
      names none. */
  lemma EntryNames(nfkd: string -> string, value: string, v: string)
    requires (forall c :: c in value ==> !IsLineEnd(c)) && Means(value, v)
    ensures ReadId(nfkd, Some("WORKSPACE_ID=" + value)) == if Taken(SlugOf(nfkd, v)) then "" else SlugOf(nfkd, v)
  {
    hide Sanitize, Trim, SlugOf, Taken, LineValue, IsLineEnd, ParseValue;
    assert "WORKSPACE_ID=" + value == Entry(value);
    EntryValue(value);
    var rest := value[Spaces(value)..];
    SpacesFacts(value);
    TrimSkips(value[..Spaces(value)], rest);
    assert value[..Spaces(value)] + rest == value;
    SameMeaning(value, rest);
    ParsedMeans(value, v);
    SanitizedIs(nfkd, v);
  }

  lemma SameMeaning(a: string, b: string)
    requires Trim(a) == Trim(b)
    ensures ParseValue(a) == ParseValue(b)
  {
  }

  lemma EntryValue(value: string)
    requires forall c :: c in value ==> !IsLineEnd(c)
    ensures ValueIn(Entry(value)) == Some(value[Spaces(value)..])
  {
    hide Head, Spaces, Blank, EnvLines, FirstValue, ValueIn, LineLength;
    var line := Entry(value);
    EntryHead(value, "");
    assert line + "" == line && value + "" == value;
    var rest := value[Spaces(value)..];
    LineLengthUnique(rest, |rest|);
    assert rest[|rest|..] == "" && rest[..|rest|] == rest;
    assert Blank("") by { NothingBlank(); }
    NoNewlineIn(line, value);
    ValueUnfold(line);
  }

  lemma NothingBlank()
    ensures Blank("")
  {
  }

  lemma NoNewlineIn(line: string, value: string)
    requires line == Entry(value) && forall c :: c in value ==> !IsLineEnd(c)
    ensures FirstLine(line) == line
  {
    var head := "WORKSPACE_ID=";
    assert line == head + value && '\n' !in head;
    forall i | 0 <= i < |line| ensures line[i] != '\n' {
      assert if i < |head| then line[i] in head else line[i] in value;
    }
    NewlineUnique(line, |line|);
  }

  // ----- the file and the environment -----

  class Environment {
    const nfkd: string -> string
    var file: Option<string>
    var variable: Option<string>

    constructor (nfkd: string -> string, file: Option<string>, variable: Option<string>)
      ensures this.nfkd == nfkd && this.file == file && this.variable == variable
    {
      this.nfkd := nfkd;
      this.file := file;
      this.variable := variable;
    }

    method ReadWorkspaceId() returns (id: string)
      ensures id == ReadId(nfkd, file)
    {
      if file.None? {
        return "";
      }
      var lines := EnvLines(file.value);
      assert lines[0..] == lines;
      for i := 0 to |lines|
        invariant FirstValue(lines[i..]) == ValueIn(file.value)
      {
        var value := LineValue(lines[i]);
        assert lines[i..][1..] == lines[i + 1..];
        if value.Some? {
          return Sanitize(nfkd, ParseValue(value.value));
        }
      }
      id := "";
    }

    method PersistWorkspaceId(workspaceId: string)
      modifies `file
      ensures file == Some(Persisted(old(file), workspaceId))
    {
      var nextLine := "WORKSPACE_ID=" + workspaceId;
      assert nextLine == Entry(workspaceId);
      if file.None? {
        file := Some(nextLine + "\n");
        return;
      }
      var raw := file.value;
      var found := FirstMatch(raw, 0);
      if found.Some? {
        var updated := raw[..found.value] + nextLine + AfterMatch(raw, found.value);
        if updated != raw {
          file := Some(updated);
        }
        return;
      }
      var separator := if raw == "" || Last(raw) == '\n' then "" else "\n";
      file := Some(raw + separator + nextLine + "\n");
    }

    method ResolveWorkspaceIdentity(names: Names) returns (id: string)
      modifies this
      ensures id == ResolveId(nfkd, old(file), old(variable), names) && IsId(id)
      ensures if ReadId(nfkd, old(file)) != "" then id == ReadId(nfkd, old(file))
              else FirstFree(nfkd, Candidates(old(variable), names), id)
      ensures variable == Some(id) && file == Some(Persisted(old(file), id))
    {
      hide FolderName, Sanitize, IsId, FirstFree;
      ResolvedIsId(nfkd, file, variable, names);
      if ReadId(nfkd, file) == "" {
        ResolvedFirstFree(nfkd, file, variable, names);
      }
      id := ReadWorkspaceId();
      if id == "" {
        id := EnvironmentId(nfkd, variable);
      }
      if id == "" {
        id := FolderName(nfkd, names);
      }
      variable := Some(id);
      PersistWorkspaceId(id);
    }
  }
}
