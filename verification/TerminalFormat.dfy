/** Terminal messages cut into text and code blocks (nuxt-ui/composables/formatTerminalMessage.ts). */
module TerminalFormat {
  import opened Sequences
  import opened TerminalText
  import opened Texts

  const FENCE := "```"

  predicate IsFence(line: string) {
    |FENCE| <= |line| && line[..|FENCE|] == FENCE
  }

  predicate IsIndented(line: string) {
    (|line| >= 4 && line[..4] == "    ") || (line != "" && line[0] == '\t')
  }

  predicate IsPlain(line: string) {
    !IsFence(line) && !IsIndented(line)
  }

  predicate IsBody(line: string) {
    !IsFence(line)
  }

  /** `line.replace(INDENTED_CODE_RE, '')`: one indent is taken off. */
  function Outdent(line: string): string {
    if |line| >= 4 && line[..4] == "    " then line[4..]
    else if line != "" && line[0] == '\t' then line[1..]
    else line
  }

  /** The lines that open or close a fence, the indented ones, and what the indent leaves. */
  lemma LineKinds(line: string, rest: string)
    ensures IsFence("```" + rest)
    ensures IsIndented("    " + rest) && Outdent("    " + rest) == rest
    ensures IsIndented("\t" + rest) && Outdent("\t" + rest) == rest
    ensures IsFence(line) ==> line == "```" + line[3..]
    ensures IsIndented(line) ==> line == "    " + Outdent(line) || line == "\t" + Outdent(line)
    ensures !IsIndented(line) ==> Outdent(line) == line
  {
    assert ("```" + rest)[..3] == "```" && ("    " + rest)[..4] == "    " && ("    " + rest)[4..] == rest;
    assert ("\t" + rest)[1..] == rest && ("\t" + rest)[0] == '\t';
    if |line| >= 4 && line[..4] == "    " {
      assert line == line[..4] + line[4..];
    } else if line != "" && line[0] == '\t' {
      assert line == [line[0]] + line[1..];
    }
    if IsFence(line) {
      assert line == line[..3] + line[3..];
    }
  }

  // ----- the specification: a tiling of the lines -----

  datatype Kind = Text | Fenced | Indented

  /** A stretch of consecutive source lines. */
  datatype Span = Span(kind: Kind, source: seq<string>)

  /** How many lines at the start satisfy `p`. */
  function Run(lines: seq<string>, p: string -> bool): (n: nat)
    ensures n <= |lines|
  {
    if lines == [] || !p(lines[0]) then 0 else 1 + Run(lines[1..], p)
  }

  /** The length of a fenced stretch: its closing fence belongs to it, when there is one. */
  function FencedLength(lines: seq<string>): (n: nat)
    requires lines != []
    ensures 0 < n <= |lines|
  {
    var body := Run(lines[1..], IsBody);
    if 1 + body < |lines| then body + 2 else |lines|
  }

  function FirstSpan(lines: seq<string>): (s: Span)
    requires lines != []
    ensures 0 < |s.source| <= |lines| && s.source == lines[..|s.source|]
  {
    if IsFence(lines[0]) then Span(Fenced, lines[..FencedLength(lines)])
    else if IsIndented(lines[0]) then Span(Indented, lines[..1 + Run(lines[1..], IsIndented)])
    else Span(Text, lines[..1 + Run(lines[1..], IsPlain)])
  }

  function Spans(lines: seq<string>): seq<Span>
    decreases |lines|
  {
    if lines == [] then []
    else
      var first := FirstSpan(lines);
      [first] + Spans(lines[|first.source|..])
  }

  /** The raw lines a span shows: fences dropped, one indent taken off. */
  function Shown(s: Span): seq<string> {
    match s.kind
    case Text => s.source
    case Indented => Map(s.source, Outdent)
    case Fenced =>
      if |s.source| >= 2 && IsFence(Last(s.source)) then s.source[1..|s.source| - 1]
      else if s.source != [] then s.source[1..]
      else []
  }

  // ----- what makes a tiling, and that it is the only one -----

  function Sources(spans: seq<Span>): seq<string> {
    if spans == [] then [] else spans[0].source + Sources(spans[1..])
  }

  predicate AllLines(lines: seq<string>, p: string -> bool) {
    forall l :: l in lines ==> p(l)
  }

  predicate Closed(s: Span) {
    |s.source| >= 2 && IsFence(Last(s.source))
  }

  predicate WellFormed(s: Span) {
    && s.source != []
    && match s.kind
       case Text => AllLines(s.source, IsPlain)
       case Indented => AllLines(s.source, IsIndented)
       case Fenced => IsFence(s.source[0]) && AllLines(Shown(s), IsBody)
  }

  /** Two text spans or two indented spans never touch; only the last fenced span may stay open. */
  predicate MayPrecede(a: Span, b: Span) {
    match a.kind
    case Text => b.kind != Text
    case Indented => b.kind != Indented
    case Fenced => Closed(a)
  }

  predicate IsTiling(spans: seq<Span>) {
    spans == [] || (WellFormed(spans[0]) && (|spans| > 1 ==> MayPrecede(spans[0], spans[1])) && IsTiling(spans[1..]))
  }

  lemma {:induction false} RunHolds(lines: seq<string>, p: string -> bool)
    ensures AllLines(lines[..Run(lines, p)], p)
    ensures Run(lines, p) < |lines| ==> !p(lines[Run(lines, p)])
  {
    if lines != [] && p(lines[0]) {
      RunHolds(lines[1..], p);
      assert lines[..Run(lines, p)] == [lines[0]] + lines[1..][..Run(lines[1..], p)];
    }
  }

  lemma {:induction false} RunUnique(lines: seq<string>, p: string -> bool, n: nat)
    requires n <= |lines| && AllLines(lines[..n], p) && (n < |lines| ==> !p(lines[n]))
    ensures Run(lines, p) == n
  {
    if n > 0 {
      assert lines[0] in lines[..n];
      assert lines[1..][..n - 1] == lines[..n][1..];
      RunUnique(lines[1..], p, n - 1);
    }
  }

  /** A run of one kind and the line that ends it. */
  lemma FirstSpanRun(lines: seq<string>, kind: Kind)
    requires lines != [] && kind == FirstSpan(lines).kind != Fenced
    ensures var p := if kind == Text then IsPlain else IsIndented;
            var n := |FirstSpan(lines).source|;
            n == Run(lines, p) && AllLines(lines[..n], p) && (n < |lines| ==> !p(lines[n]))
  {
    hide IsFence, IsIndented;
    RunHolds(lines, IsPlain);
    RunHolds(lines, IsIndented);
  }

  lemma FirstSpanFenced(lines: seq<string>)
    requires lines != [] && IsFence(lines[0])
    ensures var s := FirstSpan(lines);
            WellFormed(s) && (|s.source| < |lines| ==> Closed(s))
  {
    hide IsFence, IsIndented;
    var n := Run(lines[1..], IsBody);
    RunHolds(lines[1..], IsBody);
    var s := FirstSpan(lines);
    if 1 + n < |lines| {
      assert s.source == lines[..n + 2];
      assert Last(s.source) == lines[n + 1] == lines[1..][n];
      assert s.source[1..n + 1] == lines[1..][..n];
    } else {
      assert Shown(s) == lines[1..] == lines[1..][..n] by { LastIsBody(lines, n); }
    }
  }

  lemma LastIsBody(lines: seq<string>, n: nat)
    requires lines != [] && n == |lines| - 1 && AllLines(lines[1..][..n], IsBody)
    ensures |lines| >= 2 ==> !IsFence(Last(lines))
    ensures lines[1..][..n] == lines[1..]
  {
    if |lines| >= 2 {
      assert lines[1..][..n] == lines[1..] && Last(lines) in lines[1..];
      assert IsBody(Last(lines));
    }
  }

  lemma FirstSpanWellFormed(lines: seq<string>)
    requires lines != []
    ensures WellFormed(FirstSpan(lines))
    ensures var rest := lines[|FirstSpan(lines).source|..];
            rest != [] ==> MayPrecede(FirstSpan(lines), FirstSpan(rest))
  {
    hide IsFence, IsIndented;
    if IsFence(lines[0]) {
      FirstSpanFenced(lines);
    } else {
      FirstSpanRun(lines, FirstSpan(lines).kind);
    }
  }

  /** The spans tile the lines: nothing is lost, repeated or moved, and every run is as long as it can be. */
  lemma {:induction false} SpansTile(lines: seq<string>)
    ensures IsTiling(Spans(lines)) && Sources(Spans(lines)) == lines
    decreases |lines|
  {
    if lines != [] {
      hide FirstSpan, WellFormed, MayPrecede;
      var first := FirstSpan(lines);
      var rest := lines[|first.source|..];
      FirstSpanWellFormed(lines);
      SpansTile(rest);
      assert Spans(lines)[1..] == Spans(rest);
      assert rest != [] ==> Spans(rest)[0] == FirstSpan(rest);
      assert lines == lines[..|first.source|] + rest;
    }
  }

  /** No other tiling has the same lines. */
  lemma {:induction false} TilingUnique(spans: seq<Span>)
    requires IsTiling(spans)
    ensures Spans(Sources(spans)) == spans
    decreases |spans|
  {
    if spans != [] {
      hide FirstSpan, WellFormed, MayPrecede;
      var first, rest := spans[0], Sources(spans[1..]);
      TilingUnique(spans[1..]);
      if |spans| > 1 {
        TilingHead(spans[1..]);
      }
      FirstIsFirst(first, rest, if |spans| > 1 then spans[1..][0] else first);
      assert (first.source + rest)[|first.source|..] == rest;
      assert spans == [first] + spans[1..];
    }
  }

  lemma TilingHead(spans: seq<Span>)
    requires IsTiling(spans) && spans != []
    ensures var lines := Sources(spans);
            lines != [] && lines[0] == spans[0].source[0] && WellFormed(spans[0])
  {
  }

  /** A well-formed span and what may follow it: the span is the first of the whole. */
  lemma FirstIsFirst(first: Span, rest: seq<string>, next: Span)
    requires WellFormed(first)
    requires rest != [] ==> WellFormed(next) && rest[0] == next.source[0] && MayPrecede(first, next)
    ensures first.source + rest != [] && FirstSpan(first.source + rest) == first
  {
    hide IsFence, IsIndented;
    var lines := first.source + rest;
    var n := |first.source|;
    assert lines[..n] == first.source && lines[0] == first.source[0] && first.source[0] in first.source;
    assert rest != [] ==> next.source[0] in next.source && lines[n] == next.source[0];
    match first.kind
    case Text =>
      RunTail(lines, n, IsPlain);
    case Indented =>
      IndentedNotFence(lines[0]);
      if rest != [] && IsFence(rest[0]) {
        FenceNotIndented(rest[0]);
      }
      RunTail(lines, n, IsIndented);
    case Fenced => FencedIsFirst(first, rest);
  }

  lemma FirstCharacter(line: string)
    ensures IsFence(line) ==> line != "" && line[0] == '`'
    ensures IsIndented(line) ==> line != "" && (line[0] == '\t' || line[0] == ' ')
  {
    if IsFence(line) {
      assert line[0] == line[..|FENCE|][0] == FENCE[0];
    }
    if IsIndented(line) && line[0] != '\t' {
      assert line[0] == line[..4][0] == ' ';
    }
  }

  lemma IndentedNotFence(line: string)
    requires IsIndented(line)
    ensures !IsFence(line)
  {
    hide IsFence, IsIndented;
    FirstCharacter(line);
  }

  lemma FenceNotIndented(line: string)
    requires IsFence(line) || IsIndented(line)
    ensures IsFence(line) ==> !IsIndented(line)
  {
    hide IsFence, IsIndented;
    FirstCharacter(line);
  }

  lemma RunTail(lines: seq<string>, n: nat, p: string -> bool)
    requires 0 < n <= |lines| && AllLines(lines[..n], p) && (n < |lines| ==> !p(lines[n]))
    ensures 1 + Run(lines[1..], p) == n
  {
    RunUnique(lines, p, n);
    assert lines[0] in lines[..n];
  }

  lemma FencedIsFirst(first: Span, rest: seq<string>)
    requires WellFormed(first) && first.kind == Fenced && (rest != [] ==> Closed(first))
    ensures FirstSpan(first.source + rest) == first
  {
    hide IsFence, IsIndented;
    var lines, n := first.source + rest, |first.source|;
    assert lines[0] == first.source[0] && lines[..n] == first.source;
    if Closed(first) {
      assert lines[1..][..n - 2] == Shown(first);
      assert lines[1..][n - 2] == Last(first.source);
      RunUnique(lines[1..], IsBody, n - 2);
    } else {
      assert lines == first.source && lines[1..][..n - 1] == Shown(first);
      RunUnique(lines[1..], IsBody, n - 1);
    }
  }

  // ----- conservation, line by line -----

  /** What each line leaves, read with one bit of memory: are we inside a fence? */
  function Kept(lines: seq<string>, inFence: bool): seq<string> {
    if lines == [] then []
    else if IsFence(lines[0]) then Kept(lines[1..], !inFence)
    else [if inFence then lines[0] else Outdent(lines[0])] + Kept(lines[1..], inFence)
  }

  function AllShown(spans: seq<Span>): seq<string> {
    if spans == [] then [] else Shown(spans[0]) + AllShown(spans[1..])
  }

  lemma {:induction false} KeptBody(body: seq<string>, rest: seq<string>)
    requires AllLines(body, IsBody)
    ensures Kept(body + rest, true) == body + Kept(rest, true)
  {
    if body == [] {
      assert body + rest == rest;
    } else {
      hide IsFence;
      assert body[0] in body && forall l :: l in body[1..] ==> l in body;
      KeptBody(body[1..], rest);
      assert (body + rest)[1..] == body[1..] + rest;
    }
  }

  lemma {:induction false} KeptOutside(run: seq<string>, rest: seq<string>)
    requires AllLines(run, IsBody)
    ensures Kept(run + rest, false) == Map(run, Outdent) + Kept(rest, false)
  {
    if run == [] {
      assert run + rest == rest;
    } else {
      hide IsFence;
      assert run[0] in run && forall l :: l in run[1..] ==> l in run;
      KeptOutside(run[1..], rest);
      assert (run + rest)[1..] == run[1..] + rest;
      MapCons(run);
    }
  }

  lemma {:induction false} MapCons(run: seq<string>)
    requires run != []
    ensures Map(run, Outdent) == [Outdent(run[0])] + Map(run[1..], Outdent)
  {
    hide Outdent;
    if |run| > 1 {
      MapCons(DropLast(run));
      assert DropLast(run)[1..] == DropLast(run[1..]);
    }
  }

  lemma OutdentPlain(run: seq<string>)
    requires AllLines(run, IsPlain)
    ensures Map(run, Outdent) == run
  {
    hide IsPlain, Outdent, Map;
    forall i | 0 <= i < |run| ensures Map(run, Outdent)[i] == run[i] {
      assert run[i] in run;
      MapAt(run, Outdent, i);
      PlainStays(run[i]);
    }
  }

  lemma PlainStays(line: string)
    requires IsPlain(line)
    ensures Outdent(line) == line
  {
  }

  lemma KeptSpan(s: Span, rest: seq<string>)
    requires WellFormed(s) && (s.kind == Fenced && rest != [] ==> Closed(s))
    ensures Kept(s.source + rest, false) == Shown(s) + Kept(rest, false)
  {
    hide IsFence, Outdent;
    match s.kind
    case Text =>
      OutdentPlain(s.source);
      KeptOutside(s.source, rest);
    case Indented =>
      forall l | l in s.source ensures IsBody(l) { IndentedNotFence(l); }
      KeptOutside(s.source, rest);
    case Fenced =>
      var lines := s.source + rest;
      assert lines[0] == s.source[0];
      if Closed(s) {
        assert lines[1..] == Shown(s) + ([Last(s.source)] + rest);
        KeptBody(Shown(s), [Last(s.source)] + rest);
        assert ([Last(s.source)] + rest)[1..] == rest;
      } else {
        assert lines[1..] == Shown(s) + [];
        KeptBody(Shown(s), []);
      }
  }

  lemma {:induction false} TilingConserves(spans: seq<Span>)
    requires IsTiling(spans)
    ensures AllShown(spans) == Kept(Sources(spans), false)
  {
    if spans != [] {
      hide WellFormed, Shown, Kept;
      TilingConserves(spans[1..]);
      if |spans| == 1 {
        assert Sources(spans[1..]) == [];
      } else {
        TilingHead(spans[1..]);
      }
      KeptSpan(spans[0], Sources(spans[1..]));
    } else {
      assert Kept([], false) == [];
    }
  }

  /** Every line is shown once and in order, fence lines are not shown, and exactly one indent is taken
      off each line outside a fence that has one. */
  lemma LinesConserved(lines: seq<string>)
    ensures AllShown(Spans(lines)) == Kept(lines, false)
  {
    SpansTile(lines);
    TilingConserves(Spans(lines));
  }

  // ----- the tokenizer -----

  const PREVIEW := 80

  datatype Line = Line(raw: string, preview: string, isLong: bool)

  datatype Block = Block(code: bool, lines: seq<Line>)

  function CreateLine(raw: string): (line: Line)
    ensures line.raw == raw && (line.isLong <==> |raw| > 80)
    ensures !line.isLong ==> line.preview == raw
    ensures line.isLong ==> line.preview != "" && Last(line.preview) == '\U{2026}'
                            && DropLast(line.preview) == TrimEnd(raw[..80])
  {
    var isLong := |raw| > PREVIEW;
    var preview := if isLong then TrimEnd(raw[..PREVIEW]) + "\U{2026}" else raw;
    Line(raw, preview, isLong)
  }

  function BlockOf(s: Span): Block {
    Block(s.kind != Text, Map(Shown(s), CreateLine))
  }

  function Blocks(spans: seq<Span>): seq<Block> {
    if spans == [] then [] else [BlockOf(spans[0])] + Blocks(spans[1..])
  }

  /** One block for each stretch: code when it is fenced or indented, with the lines it shows. */
  lemma {:induction false} BlocksAre(spans: seq<Span>, i: nat)
    requires i < |spans|
    ensures |Blocks(spans)| == |spans|
    ensures var b := Blocks(spans)[i];
            && (b.code <==> spans[i].kind == Fenced || spans[i].kind == Indented)
            && |b.lines| == |Shown(spans[i])|
            && forall k :: 0 <= k < |b.lines| ==> b.lines[k] == CreateLine(Shown(spans[i])[k])
  {
    hide Shown, CreateLine;
    if i > 0 {
      BlocksAre(spans[1..], i - 1);
    } else {
      forall k | 0 <= k < |Shown(spans[0])| ensures Blocks(spans)[0].lines[k] == CreateLine(Shown(spans[0])[k]) {
        MapAt(Shown(spans[0]), CreateLine, k);
      }
      BlocksLength(spans[1..]);
    }
  }

  lemma {:induction false} BlocksLength(spans: seq<Span>)
    ensures |Blocks(spans)| == |spans|
  {
    hide BlockOf;
    if spans != [] {
      BlocksLength(spans[1..]);
    }
  }

  /** Plain lines that wait for what follows them. */
  lemma Flushed(current: seq<string>, rest: seq<string>)
    requires AllLines(current, IsPlain) && (rest != [] ==> !IsPlain(rest[0]))
    ensures Spans(current + rest) == (if current == [] then [] else [Span(Text, current)]) + Spans(rest)
  {
    hide IsFence, IsIndented;
    var lines := current + rest;
    if current == [] {
      assert lines == rest;
    } else {
      assert lines[..|current|] == current && lines[0] in current;
      RunTail(lines, |current|, IsPlain);
      assert lines[|current|..] == rest;
    }
  }

  lemma FencedShown(lines: seq<string>, k: nat)
    requires k < |lines| && IsFence(lines[0]) && AllLines(lines[1..1 + k], IsBody)
    requires 1 + k < |lines| ==> IsFence(lines[1 + k])
    ensures Shown(FirstSpan(lines)) == lines[1..1 + k]
    ensures |FirstSpan(lines).source| == if 1 + k < |lines| then k + 2 else k + 1
  {
    hide IsFence;
    assert lines[1..][..k] == lines[1..1 + k];
    RunUnique(lines[1..], IsBody, k);
    FirstSpanFenced(lines);
    if 1 + k == |lines| && k > 0 {
      assert Last(lines) in lines[1..1 + k];
      assert IsBody(Last(lines));
    }
  }

  lemma IndentedShown(lines: seq<string>, k: nat)
    requires 0 < k <= |lines| && AllLines(lines[..k], IsIndented)
    requires k < |lines| ==> !IsIndented(lines[k])
    ensures FirstSpan(lines) == Span(Indented, lines[..k]) && Shown(FirstSpan(lines)) == Map(lines[..k], Outdent)
  {
    hide IsFence, IsIndented, Outdent;
    assert lines[0] in lines[..k];
    IndentedNotFence(lines[0]);
    RunTail(lines, k, IsIndented);
  }

  /** What the tokenizer has built after some lines: finished spans, then plain lines that still wait. */
  ghost predicate Progress(lines: seq<string>, done: seq<Span>, current: seq<string>, idx: nat, blocks: seq<Block>) {
    && idx <= |lines|
    && AllLines(current, IsPlain)
    && Spans(lines) == done + Spans(current + lines[idx..])
    && blocks == Blocks(done)
  }

  function Flush(current: seq<string>): seq<Span> {
    if current == [] then [] else [Span(Text, current)]
  }

  lemma ProgressFlush(lines: seq<string>, done: seq<Span>, current: seq<string>, idx: nat, blocks: seq<Block>)
    requires Progress(lines, done, current, idx, blocks) && (idx < |lines| ==> !IsPlain(lines[idx]))
    ensures Progress(lines, done + Flush(current), [], idx,
                     if current == [] then blocks else blocks + [Block(false, Map(current, CreateLine))])
  {
    hide Spans, CreateLine, IsPlain, Blocks;
    Flushed(current, lines[idx..]);
    assert [] + lines[idx..] == lines[idx..];
    if current == [] {
      assert done + Flush(current) == done;
    } else {
      BlocksPush(done, Span(Text, current));
    }
  }

  lemma ProgressCode(lines: seq<string>, done: seq<Span>, idx: nat, blocks: seq<Block>, code: seq<string>, next: nat)
    requires Progress(lines, done, [], idx, blocks) && idx < |lines| && FirstSpan(lines[idx..]).kind != Text
    requires code == Shown(FirstSpan(lines[idx..])) && next == idx + |FirstSpan(lines[idx..]).source|
    ensures Progress(lines, done + [FirstSpan(lines[idx..])], [], next, blocks + [Block(true, Map(code, CreateLine))])
  {
    hide CreateLine, FirstSpan, Shown, Blocks, IsPlain;
    var rest := lines[idx..];
    var first := FirstSpan(rest);
    assert [] + rest == rest;
    assert rest[|first.source|..] == lines[next..] && [] + lines[next..] == lines[next..];
    BlocksPush(done, first);
    assert Spans(lines) == done + ([first] + Spans(lines[next..])) == (done + [first]) + Spans(lines[next..]);
  }

  lemma ProgressPlain(lines: seq<string>, done: seq<Span>, current: seq<string>, idx: nat, blocks: seq<Block>)
    requires Progress(lines, done, current, idx, blocks) && idx < |lines| && IsPlain(lines[idx])
    ensures Progress(lines, done, current + [lines[idx]], idx + 1, blocks)
  {
    hide Spans, CreateLine, IsPlain, Blocks;
    assert current + lines[idx..] == (current + [lines[idx]]) + lines[idx + 1..];
  }

  /** The tokenizer's loops build the blocks of the one tiling. */
  method TokenizeText(lines: seq<string>) returns (blocks: seq<Block>)
    ensures blocks == Blocks(Spans(lines))
  {
    hide Progress, Spans, Blocks, FirstSpan, Shown, CreateLine, IsFence, IsIndented;
    blocks := [];
    var current: seq<string> := [];
    var idx := 0;
    ghost var done: seq<Span> := [];
    ProgressStart(lines);
    while idx < |lines|
      invariant 0 <= idx <= |lines|
      invariant Progress(lines, done, current, idx, blocks)
    {
      var line := lines[idx];
      if IsFence(line) || IsIndented(line) {
        ProgressFlush(lines, done, current, idx, blocks);
        if current != [] {
          blocks := blocks + [Block(false, Map(current, CreateLine))];
        }
        done := done + Flush(current);
        current := [];
        ghost var first := FirstSpan(lines[idx..]);
        ghost var was := idx;
        FirstSpanKind(lines[idx..]);
        var code: seq<string>;
        if IsFence(line) {
          code, idx := FencedCode(lines, idx);
        } else {
          code, idx := IndentedCode(lines, idx);
        }
        ProgressCode(lines, done, was, blocks, code, idx);
        blocks := blocks + [Block(true, Map(code, CreateLine))];
        done := done + [first];
      } else {
        ProgressPlain(lines, done, current, idx, blocks);
        current := current + [line];
        idx := idx + 1;
      }
    }
    ProgressFlush(lines, done, current, idx, blocks);
    if current != [] {
      blocks := blocks + [Block(false, Map(current, CreateLine))];
    }
    ProgressEnd(lines, done + Flush(current), blocks);
  }

  lemma ProgressStart(lines: seq<string>)
    ensures Progress(lines, [], [], 0, [])
  {
    assert [] + lines[0..] == lines;
  }

  lemma {:induction false} ProgressEnd(lines: seq<string>, done: seq<Span>, blocks: seq<Block>)
    requires Progress(lines, done, [], |lines|, blocks)
    ensures blocks == Blocks(Spans(lines))
  {
    hide Blocks, IsPlain, Spans;
    NoSpans();
    assert [] + lines[|lines|..] == [];
    assert done + [] == done;
  }

  lemma NoSpans()
    ensures Spans([]) == []
  {
  }

  lemma FirstSpanKind(lines: seq<string>)
    requires lines != []
    ensures FirstSpan(lines).kind == Text <==> IsPlain(lines[0])
  {
  }

  lemma {:induction false} BlocksPush(spans: seq<Span>, s: Span)
    ensures Blocks(spans + [s]) == Blocks(spans) + [BlockOf(s)]
  {
    hide BlockOf;
    if spans == [] {
      assert spans + [s] == [s];
    } else {
      BlocksPush(spans[1..], s);
      assert (spans + [s])[1..] == spans[1..] + [s];
    }
  }

  /** The loop after an opening fence. */
  method FencedCode(lines: seq<string>, start: nat) returns (code: seq<string>, next: nat)
    requires start < |lines| && IsFence(lines[start])
    ensures code == Shown(FirstSpan(lines[start..]))
    ensures start < next <= |lines| && next == start + |FirstSpan(lines[start..]).source|
  {
    hide IsFence, Shown, FirstSpan;
    code := [];
    next := start + 1;
    while next < |lines| && !IsFence(lines[next])
      invariant start < next <= |lines|
      invariant code == lines[start + 1..next] && AllLines(code, IsBody)
    {
      code := code + [lines[next]];
      next := next + 1;
    }
    ghost var rest := lines[start..];
    assert rest[1..next - start] == lines[start + 1..next];
    FencedShown(rest, next - start - 1);
    if next < |lines| {
      next := next + 1;
    }
  }

  /** The loop over a run of indented lines. */
  method IndentedCode(lines: seq<string>, start: nat) returns (code: seq<string>, next: nat)
    requires start < |lines| && IsIndented(lines[start])
    ensures code == Shown(FirstSpan(lines[start..]))
    ensures start < next <= |lines| && next == start + |FirstSpan(lines[start..]).source|
  {
    hide IsIndented, Shown, FirstSpan, Outdent;
    code := [Outdent(lines[start])];
    assert lines[start..start + 1] == [lines[start]] && DropLast([lines[start]]) == [];
    next := start + 1;
    while next < |lines| && IsIndented(lines[next])
      invariant start < next <= |lines|
      invariant code == Map(lines[start..next], Outdent) && AllLines(lines[start..next], IsIndented)
    {
      code := code + [Outdent(lines[next])];
      next := next + 1;
      assert lines[start..next] == lines[start..next - 1] + [lines[next - 1]];
      assert DropLast(lines[start..next]) == lines[start..next - 1];
    }
    ghost var rest := lines[start..];
    assert rest[..next - start] == lines[start..next];
    IndentedShown(rest, next - start);
  }

  // ----- blank lines -----

  predicate TwoBlanks(lines: seq<string>, i: int) {
    0 <= i < |lines| - 1 && lines[i] == "" && lines[i + 1] == ""
  }

  ghost predicate NoTwoBlanks(lines: seq<string>) {
    forall i :: !TwoBlanks(lines, i)
  }

  lemma NoTwoBlanksPush(lines: seq<string>, line: string)
    requires NoTwoBlanks(lines) && !(line == "" && lines != [] && Last(lines) == "")
    ensures NoTwoBlanks(lines + [line])
  {
    forall i ensures !TwoBlanks(lines + [line], i) {
      assert !TwoBlanks(lines, i);
    }
  }

  lemma SliceNoTwoBlanks(lines: seq<string>, a: nat, b: nat)
    requires NoTwoBlanks(lines) && a <= b <= |lines|
    ensures NoTwoBlanks(lines[a..b])
  {
    forall i ensures !TwoBlanks(lines[a..b], i) {
      assert !TwoBlanks(lines, a + i);
    }
  }

  /** Lines of a text that does not begin with a newline and has no three in a row. */
  lemma {:induction false} SplitBlanks(s: string)
    requires s != "" && s[0] != '\n' && NoTripleNewline(s)
    ensures NoTwoBlanks(Lines(s))
    ensures Rest(s) == "" <==> Last(s) == '\n'
    ensures Rest(s) == "" && Lines(s) != [] && Last(Lines(s)) == "" ==> EndsInTwo(s)
  {
    hide Split;
    SplitPush(DropLast(s), Last(s));
    assert s == DropLast(s) + [Last(s)];
    if |s| == 1 {
      assert DropLast(s) == "";
      SplitOneLine("");
      assert Lines(s) == [];
    } else {
      var t := DropLast(s);
      SplitBlanks(t);
      assert Split(t) == Lines(t) + [Rest(t)];
      if Last(s) == '\n' {
        assert Lines(s) == Lines(t) + [Rest(t)];
        NoTwoBlanksPush(Lines(t), Rest(t));
        assert s[|s| - 2] == Last(t);
      } else {
        assert Lines(s) == Lines(t);
      }
    }
  }

  lemma {:induction false} TrimStartShape(s: string)
    ensures TrimStart(s) == "" || !IsSpace(TrimStart(s)[0])
  {
    hide IsSpace;
    if s != "" && IsSpace(s[0]) {
      TrimStartShape(s[1..]);
    }
  }

  lemma {:induction false} TrimEndShape(s: string)
    ensures |TrimEnd(s)| <= |s|
    ensures TrimEnd(s) == "" || (!IsSpace(Last(TrimEnd(s))) && TrimEnd(s)[0] == s[0])
  {
    hide IsSpace;
    if s != "" && IsSpace(Last(s)) {
      TrimEndShape(DropLast(s));
    }
  }

  lemma NewlineIsSpace(c: char)
    requires !IsSpace(c)
    ensures c != '\n'
  {
  }

  /** The lines that are tokenized: no two blank ones in a row. */
  lemma NormalizedLines(text: string)
    requires Normalized(text) != ""
    ensures NoTwoBlanks(Split(Normalized(text)))
  {
    hide StripAnsi, NormalizeReturns, IsSpace, Split, CompressBlankLines, TrimStart, TrimEnd;
    var stripped := StripAnsi(NormalizeReturns(text));
    var trimmed := Trim(stripped);
    TrimStartShape(stripped);
    TrimEndShape(TrimStart(stripped));
    CompressedShape(trimmed);
    NewlineIsSpace(trimmed[0]);
    NewlineIsSpace(Last(trimmed));
    var s := Normalized(text);
    SplitBlanks(s);
    NoTwoBlanksPush(Lines(s), Rest(s));
    assert Split(s) == Lines(s) + [Rest(s)];
  }

  /** No text or fenced span of such lines shows two blank lines in a row.  An indented one may: a line
      of four spaces shows as blank. */
  lemma {:induction false} SpansNoTwoBlanks(lines: seq<string>)
    requires NoTwoBlanks(lines)
    ensures forall s :: s in Spans(lines) && s.kind != Indented ==> NoTwoBlanks(Shown(s))
    decreases |lines|
  {
    hide FirstSpan, NoTwoBlanks;
    if lines != [] {
      var first := FirstSpan(lines);
      var n := |first.source|;
      SliceNoTwoBlanks(lines, n, |lines|);
      assert lines[n..|lines|] == lines[n..];
      SpansNoTwoBlanks(lines[n..]);
      SliceNoTwoBlanks(lines, 0, n);
      SliceNoTwoBlanks(lines, 1, n);
      SliceNoTwoBlanks(lines, 1, if n > 1 then n - 1 else n);
      assert first.source == lines[0..n] && first.source[1..] == lines[1..n];
      assert n > 1 ==> first.source[1..n - 1] == lines[1..n - 1];
    }
  }

  /** `shown` is the text that is cut into lines, and there is no other. */
  method FormatTerminalMessage(text: string) returns (blocks: seq<Block>, ghost shown: string)
    ensures blocks == if Normalized(text) == "" then [] else Blocks(Spans(Split(Normalized(text))))
    ensures blocks == if shown == "" then [] else Blocks(Spans(Split(shown)))
    ensures NormalizesTo(text, shown) && forall r :: NormalizesTo(text, r) ==> r == shown
  {
    hide NormalizesTo;
    var normalized := Normalized(text);
    shown := normalized;
    forall r ensures NormalizesTo(text, r) <==> r == shown {
      NormalizedIff(text, r);
    }
    if normalized == "" {
      return [], shown;
    }
    blocks := TokenizeText(Split(normalized));
  }

  /** What a reader of the formatted message sees of the text. */
  lemma FormattedMessage(text: string)
    requires Normalized(text) != ""
    ensures var spans := Spans(Split(Normalized(text)));
            && Sources(spans) == Split(Normalized(text))
            && IsTiling(spans)
            && AllShown(spans) == Kept(Split(Normalized(text)), false)
            && forall s :: s in spans && s.kind != Indented ==> NoTwoBlanks(Shown(s))
  {
    hide Normalized, Split, IsTiling, Kept, Shown, NoTwoBlanks;
    SpansTile(Split(Normalized(text)));
    LinesConserved(Split(Normalized(text)));
    NormalizedLines(text);
    SpansNoTwoBlanks(Split(Normalized(text)));
  }
}
