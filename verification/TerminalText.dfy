/** The text of a terminal message before it is cut into lines: line ends, ANSI sequences and runs of
    newlines (nuxt-ui/composables/formatTerminalMessage.ts). */
module TerminalText {
  import opened Sequences
  import opened Texts

  const ESCAPE := '\U{1B}'

  predicate IsParameter(c: char) {
    '0' <= c <= '9' || c == ';' || c == '?'
  }

  predicate IsIntermediate(c: char) {
    ' ' <= c <= '/'
  }

  predicate IsFinal(c: char) {
    '@' <= c <= '~'
  }

  function Prefix(s: string, p: char -> bool): (n: nat)
    ensures n <= |s|
  {
    if s == "" || !p(s[0]) then 0 else 1 + Prefix(s[1..], p)
  }

  /** The length of the ANSI sequence a text starts with; 0 when it starts with none. */
  function AnsiLength(s: string): (n: nat)
    ensures n <= |s|
  {
    if |s| < 2 || s[0] != ESCAPE || s[1] != '[' then 0
    else
      var i := 2 + Prefix(s[2..], IsParameter);
      var j := i + Prefix(s[i..], IsIntermediate);
      if j < |s| && IsFinal(s[j]) then j + 1 else 0
  }

  function StripAnsi(s: string): string
    decreases |s|
  {
    if s == "" then ""
    else if AnsiLength(s) > 0 then StripAnsi(s[AnsiLength(s)..])
    else [s[0]] + StripAnsi(s[1..])
  }

  /** `text.replace(/\r\n?/g, '\n')` */
  function NormalizeReturns(s: string): string
    decreases |s|
  {
    if s == "" then ""
    else if s[0] != '\r' then [s[0]] + NormalizeReturns(s[1..])
    else if |s| > 1 && s[1] == '\n' then "\n" + NormalizeReturns(s[2..])
    else "\n" + NormalizeReturns(s[1..])
  }

  predicate EndsInTwo(s: string) {
    |s| >= 2 && Last(s) == '\n' && s[|s| - 2] == '\n'
  }

  /** `text.replace(/\n{3,}/g, '\n\n')`: a newline after two others goes. */
  function CompressBlankLines(s: string): string {
    if s == "" then ""
    else
      var before := CompressBlankLines(DropLast(s));
      if Last(s) == '\n' && EndsInTwo(DropLast(s)) then before else before + [Last(s)]
  }

  predicate NoTripleNewline(s: string) {
    s == "" || (NoTripleNewline(DropLast(s)) && !(Last(s) == '\n' && EndsInTwo(DropLast(s))))
  }

  predicate IsVisible(c: char) {
    c != '\n'
  }

  /** Compressing takes newlines only, and leaves no three in a row. */
  lemma {:induction false} CompressedShape(s: string)
    ensures var r := CompressBlankLines(s);
            && NoTripleNewline(r)
            && Filter(r, IsVisible) == Filter(s, IsVisible)
            && (r == "" <==> s == "")
            && (s != "" ==> r[0] == s[0] && Last(r) == Last(s))
            && (EndsInTwo(r) <==> EndsInTwo(s))
  {
    if s != "" {
      CompressedShape(DropLast(s));
      var before := CompressBlankLines(DropLast(s));
      assert DropLast(before + [Last(s)]) == before;
    }
  }

  lemma {:induction false} CompressKeeps(s: string)
    requires NoTripleNewline(s)
    ensures CompressBlankLines(s) == s
  {
    if s != "" {
      CompressKeeps(DropLast(s));
    }
  }

  /** `formatTerminalMessage` up to its split. */
  function Normalized(text: string): string {
    CompressBlankLines(Trim(StripAnsi(NormalizeReturns(text))))
  }

  // ----- cutting a text into parts -----

  function Join(parts: seq<string>): string {
    if parts == [] then "" else parts[0] + Join(parts[1..])
  }

  lemma {:induction false} JoinConcat(a: seq<string>, b: seq<string>)
    ensures Join(a + b) == Join(a) + Join(b)
  {
    if a == [] {
      assert a + b == b;
    } else {
      JoinConcat(a[1..], b);
      assert (a + b)[1..] == a[1..] + b;
    }
  }

  lemma JoinOne(part: string)
    ensures Join([part]) == part
  {
    assert [part][1..] == [];
  }

  lemma FilterFront(part: string, parts: seq<string>, keep: string -> bool)
    ensures Filter([part] + parts, keep) == (if keep(part) then [part] else []) + Filter(parts, keep)
  {
    FilterConcat([part], parts, keep);
    FilterPush([], part, keep);
    FilterNone<string>([], keep);
    assert [] + [part] == [part];
  }

  lemma {:induction false} MapFront(part: string, parts: seq<string>, f: string -> string)
    ensures Map([part] + parts, f) == [f(part)] + Map(parts, f)
  {
    if parts == [] {
      assert [part] + parts == [part] && DropLast([part]) == [];
    } else {
      MapFront(part, DropLast(parts), f);
      assert DropLast([part] + parts) == [part] + DropLast(parts);
    }
  }

  // ----- ANSI sequences -----

  /** ESC, a bracket, parameters up to `i`, then intermediates, and one final character. */
  predicate SequenceWith(t: string, i: int) {
    && 2 <= i < |t|
    && t[0] == '\U{1B}' && t[1] == '['
    && (forall k :: 2 <= k < i ==> '0' <= t[k] <= '9' || t[k] == ';' || t[k] == '?')
    && (forall k :: i <= k < |t| - 1 ==> ' ' <= t[k] <= '/')
    && '@' <= Last(t) <= '~'
  }

  ghost predicate IsSequence(t: string) {
    exists i :: SequenceWith(t, i)
  }

  ghost predicate StartsSequence(s: string) {
    exists n :: 0 <= n <= |s| && IsSequence(s[..n])
  }

  /** One part is a whole sequence exactly where one starts, and else a single character. */
  ghost predicate IsCut(parts: seq<string>) {
    parts == []
    || (&& (if StartsSequence(Join(parts)) then IsSequence(parts[0]) else |parts[0]| == 1)
        && IsCut(parts[1..]))
  }

  lemma {:induction false} PrefixFacts(s: string, p: char -> bool)
    ensures forall i :: 0 <= i < Prefix(s, p) ==> p(s[i])
    ensures Prefix(s, p) < |s| ==> !p(s[Prefix(s, p)])
  {
    if s != "" && p(s[0]) {
      PrefixFacts(s[1..], p);
    }
  }

  lemma {:induction false} PrefixIs(s: string, p: char -> bool, n: nat)
    requires n <= |s| && (forall i :: 0 <= i < n ==> p(s[i])) && (n < |s| ==> !p(s[n]))
    ensures Prefix(s, p) == n
  {
    if n > 0 {
      PrefixIs(s[1..], p, n - 1);
    }
  }

  /** The length found is that of a sequence. */
  lemma AnsiIsSequence(s: string)
    requires AnsiLength(s) > 0
    ensures IsSequence(s[..AnsiLength(s)])
  {
    var i := 2 + Prefix(s[2..], IsParameter);
    var j := i + Prefix(s[i..], IsIntermediate);
    PrefixFacts(s[2..], IsParameter);
    PrefixFacts(s[i..], IsIntermediate);
    var t := s[..j + 1];
    forall k | 2 <= k < i ensures IsParameter(t[k]) {
      assert t[k] == s[2..][k - 2];
    }
    forall k | i <= k < j ensures IsIntermediate(t[k]) {
      assert t[k] == s[i..][k - i];
    }
    assert SequenceWith(t, i);
  }

  /** The three classes have nothing in common, so that a sequence has one length. */
  lemma SequenceIsAnsi(s: string, n: nat)
    requires n <= |s| && IsSequence(s[..n])
    ensures n > 0 && AnsiLength(s) == n
  {
    var t := s[..n];
    var i :| SequenceWith(t, i);
    var j := n - 1;
    forall k | 0 <= k < i - 2 ensures IsParameter(s[2..][k]) {
      assert s[2..][k] == t[k + 2];
    }
    forall k | 0 <= k < j - i ensures IsIntermediate(s[i..][k]) {
      assert s[i..][k] == t[k + i];
    }
    assert s[2..][i - 2] == t[i] && s[i..][j - i] == t[j];
    PrefixIs(s[2..], IsParameter, i - 2);
    PrefixIs(s[i..], IsIntermediate, j - i);
  }

  lemma StartsIff(s: string)
    ensures StartsSequence(s) <==> AnsiLength(s) > 0
  {
    if AnsiLength(s) > 0 {
      AnsiIsSequence(s);
    }
    if StartsSequence(s) {
      var n :| 0 <= n <= |s| && IsSequence(s[..n]);
      SequenceIsAnsi(s, n);
    }
  }

  /** A part that is not a sequence. */
  ghost predicate IsPlainPart(part: string) {
    !IsSequence(part)
  }

  function FirstLength(s: string): (n: nat)
    requires s != ""
    ensures 0 < n <= |s|
  {
    if AnsiLength(s) > 0 then AnsiLength(s) else 1
  }

  function CutOf(s: string): (parts: seq<string>)
    decreases |s|
  {
    if s == "" then [] else [s[..FirstLength(s)]] + CutOf(s[FirstLength(s)..])
  }

  lemma FirstPart(s: string)
    requires s != ""
    ensures var n := FirstLength(s);
            && (if StartsSequence(s) then IsSequence(s[..n]) else |s[..n]| == 1 && IsPlainPart(s[..n]))
            && StripAnsi(s) == (if IsPlainPart(s[..n]) then s[..n] else "") + StripAnsi(s[n..])
  {
    hide StripAnsi, AnsiLength, SequenceWith;
    StartsIff(s);
    if AnsiLength(s) > 0 {
      AnsiIsSequence(s);
    } else {
      OneIsPlain(s[..1]);
    }
    StripFirst(s);
  }

  lemma OneIsPlain(t: string)
    requires |t| == 1
    ensures !IsSequence(t)
  {
  }

  lemma StripFirst(s: string)
    requires s != ""
    ensures StripAnsi(s) == (if AnsiLength(s) > 0 then "" else s[..1]) + StripAnsi(s[FirstLength(s)..])
  {
    hide AnsiLength;
    assert s[..1] == [s[0]];
  }

  lemma CutFront(part: string, rest: seq<string>)
    requires IsCut(rest)
    requires if StartsSequence(part + Join(rest)) then IsSequence(part) else |part| == 1
    ensures IsCut([part] + rest) && Join([part] + rest) == part + Join(rest)
  {
    hide StartsSequence, IsSequence;
    assert ([part] + rest)[1..] == rest;
  }

  /** Every text has a cut. */
  lemma {:induction false} CutExists(s: string)
    ensures Join(CutOf(s)) == s && IsCut(CutOf(s))
    decreases |s|
  {
    hide StripAnsi, IsPlainPart, IsSequence, StartsSequence, FirstLength, IsCut, Join;
    if s != "" {
      var part, rest := s[..FirstLength(s)], s[FirstLength(s)..];
      CutExists(rest);
      FirstPart(s);
      assert part + rest == s;
      CutFront(part, CutOf(rest));
    } else {
      EmptyCut();
    }
  }

  lemma EmptyCut()
    ensures IsCut([]) && Join([]) == ""
  {
  }

  /** Stripping takes its sequences away. */
  lemma {:induction false} CutStrips(s: string)
    ensures StripAnsi(s) == Join(Filter(CutOf(s), IsPlainPart))
    decreases |s|
  {
    hide StripAnsi, IsPlainPart, IsSequence, StartsSequence, Filter, FirstLength, Join;
    if s == "" {
      FilterNone<string>([], IsPlainPart);
      NothingStripped();
    } else {
      var part, rest := s[..FirstLength(s)], s[FirstLength(s)..];
      CutStrips(rest);
      FirstPart(s);
      FilterFront(part, CutOf(rest), IsPlainPart);
      JoinConcat([part], Filter(CutOf(rest), IsPlainPart));
      JoinOne(part);
      assert [] + Filter(CutOf(rest), IsPlainPart) == Filter(CutOf(rest), IsPlainPart);
    }
  }

  lemma NothingStripped()
    ensures StripAnsi("") == "" && Join([]) == ""
  {
  }

  /** And no other. */
  lemma {:induction false} CutUnique(s: string, parts: seq<string>)
    requires IsCut(parts) && Join(parts) == s
    ensures parts == CutOf(s)
    decreases |parts|
  {
    hide IsSequence, StartsSequence, AnsiLength;
    if parts != [] {
      StartsIff(s);
      assert s[..|parts[0]|] == parts[0] && s[|parts[0]|..] == Join(parts[1..]);
      if StartsSequence(s) {
        SequenceIsAnsi(s, |parts[0]|);
      }
      CutUnique(Join(parts[1..]), parts[1..]);
    }
  }

  /** A text is cut in one way into sequences and single other characters, taken from the left and as early as
      possible, and what is left of it are the others. */
  lemma StrippedIs(parts: seq<string>)
    requires IsCut(parts)
    ensures StripAnsi(Join(parts)) == Join(Filter(parts, IsPlainPart))
  {
    hide StripAnsi, IsPlainPart, IsCut;
    CutStrips(Join(parts));
    CutUnique(Join(parts), parts);
  }

  /** A text without ESC stays as it is. */
  lemma {:induction false} NothingToStrip(s: string)
    requires '\U{1B}' !in s
    ensures StripAnsi(s) == s
  {
    if s != "" {
      assert s[0] in s && forall c :: c in s[1..] ==> c in s;
      NothingToStrip(s[1..]);
    }
  }

  // ----- line ends -----

  /** A carriage return with the newline after it, if there is one, or a single other character. */
  ghost predicate IsReturnCut(parts: seq<string>) {
    parts == []
    || (&& (parts[0] == "\r\n" || (|parts[0]| == 1 && !(parts[0] == "\r" && StartsLine(Join(parts[1..])))))
        && IsReturnCut(parts[1..]))
  }

  predicate StartsLine(s: string) {
    s != "" && s[0] == '\n'
  }

  function LineEnd(part: string): string {
    if part == "\r" || part == "\r\n" then "\n" else part
  }

  /** A carriage return, with or without a newline after it, becomes one newline; all else stays. */
  lemma {:induction false} ReturnsAre(parts: seq<string>)
    requires IsReturnCut(parts)
    ensures NormalizeReturns(Join(parts)) == Join(Map(parts, LineEnd))
  {
    if parts != [] {
      hide Map;
      var rest := parts[1..];
      ReturnsAre(rest);
      assert parts == [parts[0]] + rest;
      MapFront(parts[0], rest, LineEnd);
      assert Map(parts, LineEnd)[1..] == Map(rest, LineEnd);
      assert Join(parts)[|parts[0]|..] == Join(rest);
      ReturnStep(parts[0], Join(rest));
    }
  }

  lemma ReturnStep(part: string, rest: string)
    requires part == "\r\n" || (|part| == 1 && !(part == "\r" && StartsLine(rest)))
    ensures NormalizeReturns(part + rest) == LineEnd(part) + NormalizeReturns(rest)
  {
    var s := part + rest;
    assert s[|part|..] == rest;
    if |part| == 1 {
      assert part == [s[0]];
    }
  }

  function ReturnCutOf(s: string): (parts: seq<string>)
    decreases |s|
  {
    if s == "" then []
    else if s[0] == '\r' && StartsLine(s[1..]) then ["\r\n"] + ReturnCutOf(s[2..])
    else [s[..1]] + ReturnCutOf(s[1..])
  }

  lemma {:induction false} ReturnCutExists(s: string)
    ensures Join(ReturnCutOf(s)) == s && IsReturnCut(ReturnCutOf(s))
    decreases |s|
  {
    if s != "" {
      if s[0] == '\r' && StartsLine(s[1..]) {
        ReturnCutExists(s[2..]);
        assert ReturnCutOf(s)[1..] == ReturnCutOf(s[2..]) && s == "\r\n" + s[2..];
      } else {
        ReturnCutExists(s[1..]);
        assert ReturnCutOf(s)[1..] == ReturnCutOf(s[1..]) && s == s[..1] + s[1..];
      }
    }
  }

  // ----- runs of newlines -----

  predicate AllNewlines(part: string) {
    forall c :: c in part ==> c == '\n'
  }

  /** A whole run of newlines, or a single other character. */
  predicate RunPart(parts: seq<string>, i: int)
    requires 0 <= i < |parts|
  {
    if StartsLine(parts[i])
    then AllNewlines(parts[i]) && (i + 1 < |parts| ==> !StartsLine(parts[i + 1]))
    else |parts[i]| == 1
  }

  ghost predicate IsRunCut(parts: seq<string>) {
    forall i :: 0 <= i < |parts| ==> RunPart(parts, i)
  }

  function Shortened(part: string): string {
    if StartsLine(part) && |part| > 2 then "\n\n" else part
  }

  lemma CompressPush(s: string, c: char)
    ensures CompressBlankLines(s + [c])
         == if c == '\n' && EndsInTwo(s) then CompressBlankLines(s) else CompressBlankLines(s) + [c]
  {
    assert DropLast(s + [c]) == s;
  }

  lemma OneNewlineLess(run: string)
    requires AllNewlines(run) && run != ""
    ensures AllNewlines(DropLast(run)) && run == DropLast(run) + ['\n']
    ensures |run| == 3 ==> DropLast(run) == "\n\n"
  {
    assert Last(run) in run && forall c :: c in DropLast(run) ==> c in run;
    assert |run| == 3 ==> run[0] in run && run[1] in run;
  }

  lemma {:induction false} CompressRun(s: string, run: string)
    requires (s == "" || Last(s) != '\n') && AllNewlines(run)
    ensures CompressBlankLines(s + run) == CompressBlankLines(s) + if |run| > 2 then "\n\n" else run
  {
    hide CompressBlankLines, EndsInTwo, AllNewlines;
    if run == "" {
      assert s + run == s;
    } else {
      var init := DropLast(run);
      OneNewlineLess(run);
      CompressRun(s, init);
      CompressPush(s + init, '\n');
      assert s + run == (s + init) + ['\n'];
      RunEnds(s, init);
      if |run| <= 2 {
        assert CompressBlankLines(s) + run == (CompressBlankLines(s) + init) + ['\n'];
      }
    }
  }

  lemma RunEnds(s: string, run: string)
    requires (s == "" || Last(s) != '\n') && AllNewlines(run)
    ensures EndsInTwo(s + run) <==> |run| >= 2
  {
    var t := s + run;
    assert |run| >= 1 ==> Last(t) == Last(run) && Last(run) in run;
    assert |run| >= 2 ==> t[|t| - 2] == run[|run| - 2] && run[|run| - 2] in run;
    assert |run| == 1 && s != "" ==> t[|t| - 2] == Last(s);
  }

  lemma JoinLast(parts: seq<string>)
    requires parts != []
    ensures Join(parts) == Join(DropLast(parts)) + Last(parts)
    ensures Last(parts) != "" ==> Last(Join(parts)) == Last(Last(parts))
  {
    JoinConcat(DropLast(parts), [Last(parts)]);
    JoinOne(Last(parts));
    assert parts == DropLast(parts) + [Last(parts)];
  }

  /** Every run of more than two newlines becomes two; all else stays. */
  lemma {:induction false} RunsAre(parts: seq<string>)
    requires IsRunCut(parts)
    ensures CompressBlankLines(Join(parts)) == Join(Map(parts, Shortened))
  {
    if parts != [] {
      hide Map, CompressBlankLines, RunPart;
      var init, part := DropLast(parts), Last(parts);
      PartsBefore(parts);
      RunsAre(init);
      JoinLast(parts);
      MapLast(parts);
      JoinLast(Map(parts, Shortened));
      if StartsLine(part) {
        CompressRun(Join(init), part);
      } else {
        assert part == [part[0]];
        CompressPush(Join(init), part[0]);
      }
    } else {
      NothingCompressed();
    }
  }

  lemma NothingCompressed()
    ensures CompressBlankLines("") == "" && Map<string, string>([], Shortened) == [] && Join([]) == ""
  {
  }

  lemma MapLast(parts: seq<string>)
    requires parts != []
    ensures Map(parts, Shortened) != [] && Last(Map(parts, Shortened)) == Shortened(Last(parts))
    ensures DropLast(Map(parts, Shortened)) == Map(DropLast(parts), Shortened)
  {
  }

  lemma PartsBefore(parts: seq<string>)
    requires IsRunCut(parts) && parts != []
    ensures IsRunCut(DropLast(parts))
    ensures StartsLine(Last(parts)) ==>
              AllNewlines(Last(parts)) && (Join(DropLast(parts)) == "" || Last(Join(DropLast(parts))) != '\n')
    ensures !StartsLine(Last(parts)) ==> |Last(parts)| == 1
  {
    var init, n := DropLast(parts), |parts| - 1;
    forall i | 0 <= i < |init| ensures RunPart(init, i) {
      assert RunPart(parts, i);
    }
    assert RunPart(parts, n);
    if init != [] {
      assert RunPart(parts, n - 1);
      JoinLast(init);
    }
  }

  /** The run at the front, and what comes after it. */
  function RunCutOf(s: string): (parts: seq<string>) {
    if s == "" then []
    else
      var before := RunCutOf(DropLast(s));
      if Last(s) == '\n' && before != [] && StartsLine(Last(before)) then DropLast(before) + [Last(before) + "\n"]
      else before + [[Last(s)]]
  }

  /** Another newline makes the run at the end longer. */
  lemma LongerRun(parts: seq<string>)
    requires IsRunCut(parts) && parts != [] && StartsLine(Last(parts))
    ensures IsRunCut(DropLast(parts) + [Last(parts) + "\n"])
    ensures Join(DropLast(parts) + [Last(parts) + "\n"]) == Join(parts) + "\n"
  {
    hide Join;
    var more := DropLast(parts) + [Last(parts) + "\n"];
    forall i | 0 <= i < |more| ensures RunPart(more, i) {
      assert RunPart(parts, i);
    }
    JoinLast(parts);
    JoinLast(more);
    assert DropLast(more) == DropLast(parts);
    assert Join(DropLast(parts)) + (Last(parts) + "\n") == (Join(DropLast(parts)) + Last(parts)) + "\n";
  }

  lemma OneCharacter(c: char)
    ensures StartsLine([c]) <==> c == '\n'
    ensures AllNewlines([c]) <==> c == '\n'
  {
    assert c in [c];
  }

  lemma OneMorePart(parts: seq<string>, c: char)
    requires IsRunCut(parts) && !(c == '\n' && parts != [] && StartsLine(Last(parts)))
    ensures IsRunCut(parts + [[c]]) && Join(parts + [[c]]) == Join(parts) + [c]
  {
    hide Join, AllNewlines;
    var more := parts + [[c]];
    OneCharacter(c);
    forall i | 0 <= i < |more| ensures RunPart(more, i) {
      assert i < |parts| ==> RunPart(parts, i);
    }
    JoinLast(more);
    assert DropLast(more) == parts;
  }

  lemma {:induction false} RunCutExists(s: string)
    ensures Join(RunCutOf(s)) == s && IsRunCut(RunCutOf(s))
  {
    if s != "" {
      hide Join, IsRunCut;
      var before := RunCutOf(DropLast(s));
      RunCutExists(DropLast(s));
      assert s == DropLast(s) + [Last(s)];
      if Last(s) == '\n' && before != [] && StartsLine(Last(before)) {
        LongerRun(before);
      } else {
        OneMorePart(before, Last(s));
      }
    }
  }

  // ----- the normalised text -----

  /** The text of a message is cut three times: at its carriage returns, at its ANSI sequences, and, trimmed,
      at its runs of newlines; and the parts are joined again without the sequences, with a newline for every
      return, and with at most two newlines of a run. */
  ghost predicate NormalizesTo(text: string, r: string) {
    exists ends, parts, runs :: NormalizedBy(text, ends, parts, runs, r)
  }

  ghost predicate NormalizedBy(text: string, ends: seq<string>, parts: seq<string>, runs: seq<string>, r: string) {
    && IsReturnCut(ends) && Join(ends) == text
    && IsCut(parts) && Join(parts) == Join(Map(ends, LineEnd))
    && IsRunCut(runs) && Join(runs) == Trim(Join(Filter(parts, IsPlainPart)))
    && r == Join(Map(runs, Shortened))
  }

  lemma NormalizedIff(text: string, r: string)
    ensures NormalizesTo(text, r) <==> r == Normalized(text)
  {
    hide IsReturnCut, IsCut, IsRunCut, IsPlainPart, Map, Filter, Join, StripAnsi, NormalizeReturns, Trim;
    hide CompressBlankLines;
    var ends := ReturnCutOf(text);
    ReturnCutExists(text);
    ReturnsAre(ends);
    var parts := CutOf(Join(Map(ends, LineEnd)));
    CutExists(Join(Map(ends, LineEnd)));
    StrippedIs(parts);
    var runs := RunCutOf(Trim(Join(Filter(parts, IsPlainPart))));
    RunCutExists(Trim(Join(Filter(parts, IsPlainPart))));
    RunsAre(runs);
    assert NormalizedBy(text, ends, parts, runs, Normalized(text));
    forall ends, parts, runs | NormalizedBy(text, ends, parts, runs, r) ensures r == Normalized(text) {
      ReturnsAre(ends);
      StrippedIs(parts);
      RunsAre(runs);
    }
  }
}
