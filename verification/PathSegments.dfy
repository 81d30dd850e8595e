/** Inline text cut at the file paths in it (nuxt-ui/composables/formatTerminalMessage.ts).

    The regular expression is taken by what every match of it looks like; the list of matches is given. */
module PathSegments {
  import opened Sequences
  import opened Texts

  /** A match: what it starts at, the character before the path, the path, and a position suffix. */
  datatype Match = Match(start: nat, lead: string, path: string, suffix: string) {
    function Full(): string {
      lead + path + suffix
    }

    function PathStart(): nat {
      start + |lead|
    }

    function End(): nat {
      start + |lead| + |path| + |suffix|
    }
  }

  /** A path has a slash, a suffix has none, and the lead is empty only at the start of the text. */
  predicate IsMatchOf(text: string, m: Match) {
    && m.End() <= |text|
    && text[m.start..m.End()] == m.Full()
    && '/' in m.path
    && '/' !in m.suffix
    && (m.lead == "" ==> m.start == 0)
    && |m.lead| <= 1
  }

  /** What `matchAll` gives: matches from left to right that do not overlap. */
  predicate AreMatchesOf(text: string, matches: seq<Match>) {
    matches == [] ||
    (&& AreMatchesOf(text, DropLast(matches))
     && IsMatchOf(text, Last(matches))
     && (|matches| > 1 ==> matches[|matches| - 2].End() <= Last(matches).start))
  }

  /** `text.lastIndexOf(part)`, looking down from `i`. */
  function LastIndexFrom(text: string, part: string, i: int): (r: int)
    ensures r == -1 || OccursAt(text, part, r)
    decreases i
  {
    if i < 0 then -1 else if OccursAt(text, part, i) then i else LastIndexFrom(text, part, i - 1)
  }

  function LastIndexOf(text: string, part: string): int {
    LastIndexFrom(text, part, |text| - |part|)
  }

  lemma {:induction false} LastIndexIsLast(text: string, part: string, i: int, at: int)
    requires OccursAt(text, part, at) && at <= i
    requires forall j :: at < j <= i ==> !OccursAt(text, part, j)
    ensures LastIndexFrom(text, part, i) == at
    decreases i
  {
    if at < i {
      LastIndexIsLast(text, part, i - 1, at);
    }
  }

  /** The last slash of a text. */
  lemma {:induction false} LastSlash(path: string) returns (k: nat)
    requires '/' in path
    ensures k < |path| && path[k] == '/' && '/' !in path[k + 1..]
  {
    if Last(path) == '/' {
      k := |path| - 1;
    } else {
      assert path == DropLast(path) + [Last(path)];
      k := LastSlash(DropLast(path));
      assert path[k + 1..] == DropLast(path)[k + 1..] + [Last(path)];
    }
  }

  /** A later occurrence would put the slash where there is none. */
  lemma NotLater(full: string, path: string, at: nat, k: nat, j: nat)
    requires k < |path| && path[k] == '/' && at + k < |full| && '/' !in full[at + k + 1..]
    requires at < j <= |full| - |path|
    ensures !OccursAt(full, path, j)
  {
    assert full[at + k + 1..][j - at - 1] == full[j + k];
    assert full[j..j + |path|][k] == full[j + k];
  }

  /** Searching the whole match from its end finds the captured path: its last slash is the last slash
      of the match. */
  lemma PathFound(text: string, m: Match)
    requires IsMatchOf(text, m)
    ensures LastIndexOf(m.Full(), m.path) == |m.lead|
  {
    hide OccursAt, LastIndexFrom;
    var full := m.Full();
    var k := LastSlash(m.path);
    LeadThenPath(m);
    assert full[|m.lead| + k + 1..] == m.path[k + 1..] + m.suffix;
    forall j | |m.lead| < j <= |full| - |m.path| ensures !OccursAt(full, m.path, j) {
      NotLater(full, m.path, |m.lead|, k, j);
    }
    LastIndexIsLast(full, m.path, |full| - |m.path|, |m.lead|);
  }

  lemma LeadThenPath(m: Match)
    ensures OccursAt(m.Full(), m.path, |m.lead|)
  {
  }

  // ----- segments -----

  datatype Segment = Text(text: string) | Path(text: string)

  function Joined(segments: seq<Segment>): string {
    if segments == [] then "" else Joined(DropLast(segments)) + Last(segments).text
  }

  /** Where the path segments begin, and what they are. */
  function Paths(segments: seq<Segment>): seq<(nat, string)> {
    if segments == [] then []
    else Paths(DropLast(segments))
         + if Last(segments).Path? then [(|Joined(DropLast(segments))|, Last(segments).text)] else []
  }

  function PathsOf(matches: seq<Match>): seq<(nat, string)> {
    if matches == [] then [] else PathsOf(DropLast(matches)) + [(Last(matches).PathStart(), Last(matches).path)]
  }

  /** No segment is empty, and two neighbours are never of the same kind. */
  predicate Alternate(segments: seq<Segment>) {
    segments == [] ||
    (&& Alternate(DropLast(segments))
     && Last(segments).text != ""
     && (|segments| > 1 ==> segments[|segments| - 2].Path? != Last(segments).Path?))
  }

  lemma Push(segments: seq<Segment>, s: Segment)
    ensures Joined(segments + [s]) == Joined(segments) + s.text
    ensures Paths(segments + [s]) == Paths(segments) + if s.Path? then [(|Joined(segments)|, s.text)] else []
    ensures Alternate(segments + [s])
       <==> Alternate(segments) && s.text != "" && (segments != [] ==> Last(segments).Path? != s.Path?)
  {
    assert DropLast(segments + [s]) == segments;
  }

  lemma {:induction false} MatchesUpTo(text: string, matches: seq<Match>, i: nat)
    requires AreMatchesOf(text, matches) && i < |matches|
    ensures IsMatchOf(text, matches[i]) && (i > 0 ==> matches[i - 1].End() <= matches[i].start)
  {
    if i < |matches| - 1 {
      MatchesUpTo(text, DropLast(matches), i);
    }
  }

  /** The text up to `cursor` is cut: either nothing yet, or a path came last. */
  predicate IsCut(text: string, segments: seq<Segment>, cursor: nat) {
    && cursor <= |text| && Joined(segments) == text[..cursor]
    && Alternate(segments)
    && (segments == [] <==> cursor == 0)
    && (segments != [] ==> Last(segments).Path?)
  }

  function Gap(text: string, cursor: nat, to: nat): seq<Segment>
    requires to <= |text|
  {
    if cursor < to then [Text(text[cursor..to])] else []
  }

  /** One more path, with the text before it; only at the very start may that text be missing. */
  lemma CutPath(text: string, segments: seq<Segment>, cursor: nat, m: Match)
    requires IsCut(text, segments, cursor) && IsMatchOf(text, m)
    requires segments == [] || cursor < m.PathStart()
    ensures var more := segments + Gap(text, cursor, m.PathStart()) + [Path(m.path)];
            && IsCut(text, more, m.PathStart() + |m.path|)
            && Paths(more) == Paths(segments) + [(m.PathStart(), m.path)]
  {
    hide Joined, Paths, Alternate, IsMatchOf;
    MatchedPath(text, m);
    var at := m.PathStart();
    var before := segments + Gap(text, cursor, at);
    if cursor < at {
      Push(segments, Text(text[cursor..at]));
      assert text[..cursor] + text[cursor..at] == text[..at];
    } else {
      assert before == segments;
    }
    Push(before, Path(m.path));
    assert text[..at] + m.path == text[..at + |m.path|];
  }

  lemma CutEnd(text: string, segments: seq<Segment>, cursor: nat)
    requires IsCut(text, segments, cursor) && text != ""
    ensures var all := segments + Gap(text, cursor, |text|);
            all != [] && Joined(all) == text && Alternate(all) && Paths(all) == Paths(segments)
  {
    hide Joined, Paths, Alternate;
    assert text[..|text|] == text;
    if cursor < |text| {
      Push(segments, Text(text[cursor..|text|]));
      assert text[..cursor] + text[cursor..|text|] == text;
    } else {
      assert segments + Gap(text, cursor, |text|) == segments;
    }
  }

  /** Segmentation is lossless; text and path strictly alternate; nothing is empty unless the text is; and
      the paths are the matched ones, each where it was matched. */
  method SplitTerminalInlineSegments(text: string, matches: seq<Match>) returns (segments: seq<Segment>)
    requires AreMatchesOf(text, matches)
    ensures Joined(segments) == text
    ensures text == "" ==> segments == [Text("")]
    ensures text != "" ==> Alternate(segments)
    ensures Paths(segments) == PathsOf(matches)
  {
    hide AreMatchesOf, LastIndexOf, Joined, Paths, Alternate, IsMatchOf, PathsOf;
    segments := [];
    var cursor: nat := 0;
    Nothing();
    for i := 0 to |matches|
      invariant IsCut(text, segments, cursor)
      invariant segments != [] ==> i > 0 && cursor <= matches[i - 1].End()
      invariant Paths(segments) == PathsOf(matches[..i])
    {
      MatchesUpTo(text, matches, i);
      var m := matches[i];
      PathFound(text, m);
      MatchedPath(text, m);
      CutPath(text, segments, cursor, m);
      PathsOfUpTo(matches, i);
      var offset := LastIndexOf(m.Full(), m.path);
      var pathStart := m.start + if offset > 0 then offset else 0;
      var pathEnd := pathStart + |m.path|;
      ghost var more := segments + Gap(text, cursor, pathStart) + [Path(m.path)];
      if pathStart > cursor {
        segments := segments + [Text(text[cursor..pathStart])];
      }
      segments := segments + [Path(m.path)];
      assert segments == more;
      cursor := pathEnd;
    }
    assert matches[..|matches|] == matches;
    if text != "" {
      CutEnd(text, segments, cursor);
    } else {
      Push([], Text(text));
      assert [] + [Text(text)] == [Text(text)];
    }
    ghost var all := if text != "" then segments + Gap(text, cursor, |text|) else segments;
    if cursor < |text| {
      assert text[cursor..] == text[cursor..|text|];
      segments := segments + [Text(text[cursor..])];
    }
    assert segments == all;
    if segments == [] {
      segments := [Text(text)];
    }
  }

  lemma Nothing()
    ensures Joined([]) == "" && Paths([]) == PathsOf([]) == [] && Alternate([])
  {
  }

  lemma PathsOfUpTo(matches: seq<Match>, i: nat)
    requires i < |matches|
    ensures PathsOf(matches[..i + 1]) == PathsOf(matches[..i]) + [(matches[i].PathStart(), matches[i].path)]
  {
    assert DropLast(matches[..i + 1]) == matches[..i];
  }

  lemma MatchedPath(text: string, m: Match)
    requires IsMatchOf(text, m)
    ensures m.End() <= |text| && (m.lead == "" ==> m.start == 0)
    ensures text[m.PathStart()..m.PathStart() + |m.path|] == m.path && m.path != ""
  {
    hide OccursAt;
    var full := text[m.start..m.End()];
    assert full == m.lead + m.path + m.suffix;
    assert full[|m.lead|..|m.lead| + |m.path|] == m.path;
    SliceOfSlice(text, m.start, m.End(), |m.lead|, |m.lead| + |m.path|);
  }

  lemma SliceOfSlice(s: string, a: nat, b: nat, i: nat, j: nat)
    requires a <= b <= |s| && i <= j <= b - a
    ensures s[a..b][i..j] == s[a + i..a + j]
  {
    forall k | 0 <= k < j - i ensures s[a..b][i..j][k] == s[a + i..a + j][k] {
      assert s[a..b][i + k] == s[a + i + k];
    }
  }
}
