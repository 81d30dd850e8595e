/** The Codex adapter over its pseudo-terminal (agent/src/adapters/codex-cli.ts, pty-adapter.ts). */
module CodexAdapterModel {
  import opened Options
  import opened Sequences
  import opened Texts

  type TermId = nat

  const TRUST_QUESTION := "Do you trust the contents of this directory?"
  const GET_STARTED := "To get started, describe a task"
  const CONTEXT_LEFT := "context left"
  const REVIEW_HINT := "/review - review any changes and find issues"

  /** What is written to a terminal: the trust answer, or a text with its newline. */
  datatype Write = Answer(term: TermId) | Line(term: TermId, text: string)

  /** `alive` are the terminals whose exit has not been reported; `sent` and `writes` record what happened. */
  datatype Adapter = Adapter(
    term: Option<TermId>,
    outputBuf: string,
    pending: seq<string>,
    trustAnswered: bool,
    ready: bool,
    nextTerm: TermId,
    alive: set<TermId>,
    sent: seq<string>,
    writes: seq<Write>)

  predicate SaysReady(data: string) {
    Includes(data, GET_STARTED) || Includes(data, CONTEXT_LEFT) || Includes(data, REVIEW_HINT)
  }

  predicate NotEmpty(text: string) {
    text != ""
  }

  function LinesFor(term: TermId, texts: seq<string>): seq<Write> {
    if texts == [] then []
    else LinesFor(term, DropLast(texts)) + if Last(texts) != "" then [Line(term, Last(texts))] else []
  }

  function Spawned(a: Adapter): Adapter {
    a.(term := Some(a.nextTerm), alive := a.alive + {a.nextTerm}, nextTerm := a.nextTerm + 1)
  }

  /** `send`; when there is no terminal and none can be started it throws and keeps nothing. */
  function SendStep(a: Adapter, text: string, canSpawn: bool): Adapter {
    if a.term.None? && !canSpawn then a
    else
      var b := (if a.term.None? then Spawned(a) else a).(sent := a.sent + [text]);
      if !b.ready then b.(pending := b.pending + [text])
      else b.(writes := b.writes + [Line(b.term.value, text)])
  }

  /** `onDataChunk`; the chunk may come from any terminal, the answers go to the current one. */
  function ChunkStep(a: Adapter, data: string): Adapter {
    if a.term.None? then a
    else if !a.trustAnswered && Includes(data, TRUST_QUESTION) then
      a.(trustAnswered := true, writes := a.writes + [Answer(a.term.value)])
    else if !a.ready && SaysReady(data) then
      a.(ready := true, pending := [], writes := a.writes + LinesFor(a.term.value, a.pending))
    else a
  }

  // ----- when texts are delivered -----

  function LineTo(term: TermId): string -> Write {
    (text: string) => Line(term, text)
  }

  lemma {:induction false} LinesAre(term: TermId, texts: seq<string>)
    ensures LinesFor(term, texts) == Map(Filter(texts, NotEmpty), LineTo(term))
  {
    if texts != [] {
      LinesAre(term, DropLast(texts));
      var before := Filter(DropLast(texts), NotEmpty);
      if NotEmpty(Last(texts)) {
        assert DropLast(before + [Last(texts)]) == before;
      } else {
        assert Filter(texts, NotEmpty) == before;
      }
    }
  }

  /** The chunk is taken as the trust question. */
  predicate Asks(a: Adapter, data: string) {
    !a.trustAnswered && Includes(data, "Do you trust the contents of this directory?")
  }

  predicate Welcomes(data: string) {
    || Includes(data, "To get started, describe a task")
    || Includes(data, "context left")
    || Includes(data, "/review - review any changes and find issues")
  }

  /** A chunk while a terminal is in use: the trust question is answered the first time; any other chunk with
      one of the three prompts makes the adapter ready the first time, and then exactly the non-empty texts
      that were waiting are written, in order, to the terminal in use.  Any other chunk does nothing, and so
      does every chunk without a terminal. */
  lemma ChunkExactly(a: Adapter, data: string)
    ensures var a' := ChunkStep(a, data);
            if a.term.Some? && Asks(a, data) then
              a' == a.(trustAnswered := true, writes := a.writes + [Answer(a.term.value)])
            else if a.term.Some? && !a.ready && Welcomes(data) then
              a' == a.(ready := true, pending := [],
                       writes := a.writes + Map(Filter(a.pending, NotEmpty), LineTo(a.term.value)))
            else a' == a
  {
    hide Includes, Filter, Map, LinesFor;
    if a.term.Some? {
      LinesAre(a.term.value, a.pending);
    }
  }

  // ----- runs -----

  datatype Event =
    | Send(text: string, canSpawn: bool)
    | Data(from: TermId, data: string)
    | Exit(exited: TermId)
    | Destroy

  predicate Enabled(a: Adapter, e: Event) {
    match e
    case Data(from, _) => from < a.nextTerm
    case Exit(exited) => exited in a.alive
    case _ => true
  }

  /** The exit of any terminal clears `term`. */
  function Step(a: Adapter, e: Event): Adapter {
    match e
    case Send(text, canSpawn) => SendStep(a, text, canSpawn)
    case Data(_, data) => ChunkStep(a.(outputBuf := a.outputBuf + data), data)
    case Exit(exited) => a.(term := None, alive := a.alive - {exited})
    case Destroy => a.(term := None)
  }

  function Fresh(): Adapter {
    Adapter(None, "", [], false, false, 0, {}, [], [])
  }

  ghost predicate CanRun(events: seq<Event>) {
    events == [] || (CanRun(DropLast(events)) && Enabled(Run(DropLast(events)), Last(events)))
  }

  function Run(events: seq<Event>): Adapter {
    if events == [] then Fresh() else Step(Run(DropLast(events)), Last(events))
  }

  // ----- conservation and order -----

  function TextsOf(writes: seq<Write>): seq<string> {
    if writes == [] then []
    else TextsOf(DropLast(writes)) + if Last(writes).Line? then [Last(writes).text] else []
  }

  function Answers(writes: seq<Write>): nat {
    if writes == [] then 0 else Answers(DropLast(writes)) + if Last(writes).Answer? then 1 else 0
  }

  ghost predicate Inv(a: Adapter) {
    && Filter(a.sent, NotEmpty) == Filter(TextsOf(a.writes), NotEmpty) + Filter(a.pending, NotEmpty)
    && (a.ready ==> a.pending == [])
    && Answers(a.writes) == (if a.trustAnswered then 1 else 0)
    && (a.term.Some? ==> a.term.value < a.nextTerm)
    && (forall t :: t in a.alive ==> t < a.nextTerm)
  }

  lemma WritesPush(writes: seq<Write>, w: Write)
    ensures TextsOf(writes + [w]) == TextsOf(writes) + if w.Line? then [w.text] else []
    ensures Answers(writes + [w]) == Answers(writes) + if w.Answer? then 1 else 0
  {
    assert DropLast(writes + [w]) == writes;
  }

  /** Draining writes the texts that are not empty, in their order. */
  lemma {:induction false} DrainedTexts(writes: seq<Write>, term: TermId, texts: seq<string>)
    ensures TextsOf(writes + LinesFor(term, texts)) == TextsOf(writes) + Filter(texts, NotEmpty)
    ensures Answers(writes + LinesFor(term, texts)) == Answers(writes)
  {
    if texts == [] {
      assert writes + LinesFor(term, texts) == writes;
    } else {
      hide TextsOf, Answers;
      DrainedTexts(writes, term, DropLast(texts));
      var before := writes + LinesFor(term, DropLast(texts));
      if Last(texts) == "" {
        assert writes + LinesFor(term, texts) == before;
      } else {
        assert writes + LinesFor(term, texts) == before + [Line(term, Last(texts))];
        WritesPush(before, Line(term, Last(texts)));
      }
    }
  }

  lemma SendInv(a: Adapter, text: string, canSpawn: bool)
    requires Inv(a)
    ensures Inv(SendStep(a, text, canSpawn))
  {
    hide Filter, TextsOf, Answers;
    FilterPush(a.sent, text, NotEmpty);
    FilterPush(a.pending, text, NotEmpty);
    var line := Line(if a.term.Some? then a.term.value else a.nextTerm, text);
    WritesPush(a.writes, line);
    FilterPush(TextsOf(a.writes), text, NotEmpty);
    NothingFiltered();
  }

  lemma NothingFiltered()
    ensures Filter([], NotEmpty) == []
  {
  }

  lemma ChunkInv(a: Adapter, data: string)
    requires Inv(a)
    ensures Inv(ChunkStep(a, data))
  {
    hide Filter, TextsOf, Answers, Includes, SaysReady;
    NothingFiltered();
    if a.term.Some? {
      WritesPush(a.writes, Answer(a.term.value));
      assert TextsOf(a.writes) + [] == TextsOf(a.writes);
      DrainedTexts(a.writes, a.term.value, a.pending);
      FilterConcat(TextsOf(a.writes), Filter(a.pending, NotEmpty), NotEmpty);
      FilterTwice(a.pending);
      assert Filter(a.sent, NotEmpty) + [] == Filter(a.sent, NotEmpty);
      assert a.ready ==> Filter(a.pending, NotEmpty) == [];
    }
  }

  lemma {:induction false} FilterTwice(texts: seq<string>)
    ensures Filter(Filter(texts, NotEmpty), NotEmpty) == Filter(texts, NotEmpty)
  {
    FilterMembers(texts, NotEmpty);
    FilterAll(Filter(texts, NotEmpty), NotEmpty);
  }

  lemma StepInv(a: Adapter, e: Event)
    requires Inv(a)
    ensures Inv(Step(a, e))
  {
    hide SendStep, ChunkStep, Filter, TextsOf, Answers;
    match e
    case Send(text, canSpawn) => SendInv(a, text, canSpawn);
    case Data(_, data) => ChunkInv(a.(outputBuf := a.outputBuf + data), data);
    case Exit(_) =>
    case Destroy =>
  }

  /** Over every run of sends, output, exits and respawns: the non-empty texts that were sent are those
      written to a terminal followed by those still waiting, in the order of sending and each once; a
      ready adapter has none waiting; and the trust question is answered at most once. */
  lemma {:induction false} TextsConserved(events: seq<Event>)
    ensures var a := Run(events);
            && Filter(a.sent, NotEmpty) == Filter(TextsOf(a.writes), NotEmpty) + Filter(a.pending, NotEmpty)
            && (a.ready ==> a.pending == [])
            && Answers(a.writes) <= 1
    ensures Inv(Run(events))
  {
    hide Filter, TextsOf, Answers, Step;
    if events == [] {
      FreshInv();
    } else {
      TextsConserved(DropLast(events));
      StepInv(Run(DropLast(events)), Last(events));
    }
  }

  lemma FreshInv()
    ensures Inv(Fresh())
  {
  }

  /** The adapter turns ready exactly with the first welcoming chunk that finds a terminal in use and is not
      taken as the trust question, and is ready from then on. */
  lemma ReadyIff(a: Adapter, e: Event)
    ensures Step(a, e).ready <==>
              a.ready || (e.Data? && a.term.Some? && !Asks(a, e.data) && Welcomes(e.data))
  {
    hide Includes, ChunkStep;
    if e.Data? {
      ChunkExactly(a.(outputBuf := a.outputBuf + e.data), e.data);
    }
  }

  /** What one event writes: a text that is sent to a ready adapter at once, to the terminal in use or the one
      just started; what was waiting, when it turns ready; the trust answer, when it is asked; else nothing. */
  lemma WritesExactly(a: Adapter, e: Event)
    requires Inv(a)
    ensures var a' := Step(a, e);
            match e
            case Send(text, canSpawn) =>
              var term := if a.term.Some? then a.term else if canSpawn then Some(a.nextTerm) else None;
              && a'.term == term
              && a'.writes == a.writes + (if term.Some? && a.ready then [Line(term.value, text)] else [])
              && a'.pending == a.pending + (if term.Some? && !a.ready then [text] else [])
            case Data(_, data) =>
              && a'.writes == a.writes + (if a.term.None? then []
                                          else if Asks(a, data) then [Answer(a.term.value)]
                                          else if !a.ready && Welcomes(data)
                                          then Map(Filter(a.pending, NotEmpty), LineTo(a.term.value)) else [])
              && a'.pending == if a'.ready then [] else a.pending
            case _ => a'.writes == a.writes && a'.pending == a.pending
  {
    hide Includes, ChunkStep, Filter, Map, TextsOf, Answers;
    if e.Data? {
      ChunkExactly(a.(outputBuf := a.outputBuf + e.data), e.data);
    }
  }

  // ----- which terminal -----

  /** One terminal is live at most, and it is the one in use. */
  ghost predicate OwnTerminal(a: Adapter) {
    a.alive == if a.term.Some? then {a.term.value} else {}
  }

  /** `destroy` is only called while no terminal is in use. */
  predicate DestroysIdle(events: seq<Event>) {
    forall i :: 0 <= i < |events| && events[i].Destroy? ==> Run(events[..i]).term.None?
  }

  ghost predicate OwnTerminalThroughout(events: seq<Event>) {
    forall n :: 0 <= n <= |events| ==> OwnTerminal(Run(events[..n]))
  }

  lemma RunUpTo(events: seq<Event>, n: nat)
    requires n < |events|
    ensures Run(events[..n + 1]) == Step(Run(events[..n]), events[n])
    ensures CanRun(events[..n + 1]) <==> CanRun(events[..n]) && Enabled(Run(events[..n]), events[n])
  {
    assert DropLast(events[..n + 1]) == events[..n];
  }

  lemma {:induction false} CanRunUpTo(events: seq<Event>, n: nat)
    requires CanRun(events) && n <= |events|
    ensures CanRun(events[..n])
    decreases |events| - n
  {
    if n < |events| {
      hide CanRun, Run;
      CanRunUpTo(events, n + 1);
      RunUpTo(events, n);
    } else {
      assert events[..n] == events;
    }
  }

  /** From such a state only a `destroy` of the terminal in use leads out. */
  lemma OwnTerminalStep(a: Adapter, e: Event)
    requires OwnTerminal(a) && Enabled(a, e)
    ensures OwnTerminal(Step(a, e)) <==> !(e.Destroy? && a.term.Some?)
  {
    hide Includes, LinesFor;
  }

  lemma {:induction false} OwnTerminalUpTo(events: seq<Event>, n: nat)
    requires CanRun(events) && DestroysIdle(events) && n <= |events|
    ensures OwnTerminal(Run(events[..n]))
  {
    if n == 0 {
      assert events[..0] == [];
    } else {
      hide CanRun, Run, Step, Enabled;
      OwnTerminalUpTo(events, n - 1);
      CanRunUpTo(events, n);
      RunUpTo(events, n - 1);
      OwnTerminalStep(Run(events[..n - 1]), events[n - 1]);
    }
  }

  /** Throughout a run the one live terminal is the one in use exactly when `destroy` is only called while
      none is. */
  lemma OneTerminalIff(events: seq<Event>)
    requires CanRun(events)
    ensures OwnTerminalThroughout(events) <==> DestroysIdle(events)
  {
    hide CanRun, Run, Step, Enabled, OwnTerminal;
    if DestroysIdle(events) {
      forall n | 0 <= n <= |events| ensures OwnTerminal(Run(events[..n])) {
        OwnTerminalUpTo(events, n);
      }
    }
    if OwnTerminalThroughout(events) {
      forall i | 0 <= i < |events| && events[i].Destroy? ensures Run(events[..i]).term.None? {
        CanRunUpTo(events, i + 1);
        RunUpTo(events, i);
        OwnTerminalStep(Run(events[..i]), events[i]);
      }
    }
  }

  /** So an exit is then always that of the terminal in use. */
  lemma ExitIsOfCurrent(events: seq<Event>, exited: TermId)
    requires CanRun(events) && DestroysIdle(events) && exited in Run(events).alive
    ensures Run(events).term == Some(exited)
  {
    hide CanRun, Run;
    OneTerminalIff(events);
    assert events[..|events|] == events;
  }

  /** After `destroy` it need not be: the late exit of the old terminal takes the new one away, and the next
      text starts a third. */
  lemma LateExitForgetsNewTerminal(text: string)
    ensures var events := [Send(text, true), Destroy, Send(text, true), Exit(0), Send(text, true)];
            && CanRun(events)
            && Run(events[..4]).term == None && Run(events[..4]).alive == {1}
            && Run(events).term == Some(2) && Run(events).alive == {1, 2}
  {
    var events := [Send(text, true), Destroy, Send(text, true), Exit(0), Send(text, true)];
    RespawnSteps(text);
    hide Step, Enabled;
    assert events[..0] == [];
    RunUpTo(events, 0);
    RunUpTo(events, 1);
    RunUpTo(events, 2);
    RunUpTo(events, 3);
    RunUpTo(events, 4);
    assert events[..5] == events;
  }

  lemma RespawnSteps(text: string)
    ensures var a3 := Step(Step(Step(Fresh(), Send(text, true)), Destroy), Send(text, true));
            var a4 := Step(a3, Exit(0));
            && Enabled(a3, Exit(0))
            && a4.term == None && a4.alive == {1}
            && Step(a4, Send(text, true)).term == Some(2) && Step(a4, Send(text, true)).alive == {1, 2}
    ensures forall a: Adapter :: Enabled(a, Destroy) && Enabled(a, Send(text, true))
  {
  }

  lemma LinesPush(term: TermId, texts: seq<string>, text: string)
    ensures LinesFor(term, texts + [text]) == LinesFor(term, texts) + if text != "" then [Line(term, text)] else []
  {
    assert DropLast(texts + [text]) == texts;
  }

  lemma NoLines(term: TermId)
    ensures LinesFor(term, []) == []
  {
  }

  // ----- the object -----

  class CodexCliAdapter {
    var term: Option<TermId>
    var outputBuf: string
    var pending: seq<string>
    var trustAnswered: bool
    var ready: bool
    var nextTerm: TermId
    ghost var alive: set<TermId>
    ghost var sent: seq<string>
    var writes: seq<Write>

    ghost function State(): Adapter
      reads this
    {
      Adapter(term, outputBuf, pending, trustAnswered, ready, nextTerm, alive, sent, writes)
    }

    ghost predicate Valid()
      reads this
    {
      Inv(State())
    }

    constructor ()
      ensures State() == Fresh() && Valid()
    {
      term, outputBuf, pending, trustAnswered, ready := None, "", [], false, false;
      nextTerm, alive, sent, writes := 0, {}, [], [];
    }

    method Spawn()
      modifies `term, `nextTerm, `alive
      ensures State() == Spawned(old(State()))
    {
      term := Some(nextTerm);
      alive := alive + {nextTerm};
      nextTerm := nextTerm + 1;
    }

    /** False when it throws. */
    method SendText(text: string, canSpawn: bool) returns (ok: bool)
      requires Valid()
      modifies this
      ensures State() == Step(old(State()), Send(text, canSpawn)) && Valid()
      ensures ok <==> old(term).Some? || canSpawn
    {
      hide Inv;
      StepInv(State(), Send(text, canSpawn));
      if term.None? {
        if !canSpawn {
          return false;
        }
        Spawn();
      }
      sent := sent + [text];
      ok := true;
      if !ready {
        pending := pending + [text];
        return;
      }
      writes := writes + [Line(term.value, text)];
    }

    method OnDataChunk(data: string)
      modifies `trustAnswered, `ready, `pending, `writes
      ensures State() == ChunkStep(old(State()), data)
      ensures trustAnswered <==> old(trustAnswered) || (term.Some? && Asks(old(State()), data))
      ensures ready <==> old(ready) || (term.Some? && !Asks(old(State()), data) && Welcomes(data))
      ensures writes == old(writes)
                        + (if term.None? then []
                           else if Asks(old(State()), data) then [Answer(term.value)]
                           else if !old(ready) && Welcomes(data)
                           then Map(Filter(old(pending), NotEmpty), LineTo(term.value)) else [])
    {
      hide LinesFor, SaysReady, Includes, Map, Filter;
      ChunkExactly(State(), data);
      if term.None? {
        return;
      }
      if !trustAnswered && Includes(data, TRUST_QUESTION) {
        trustAnswered := true;
        writes := writes + [Answer(term.value)];
        return;
      }
      if !ready && SaysReady(data) {
        ready := true;
        ghost var all, was := pending, writes;
        assert all[..0] == [];
        NoLines(term.value);
        while pending != []
          invariant ready && trustAnswered == old(trustAnswered)
          invariant |pending| <= |all| && pending == all[|all| - |pending|..]
          invariant writes == was + LinesFor(term.value, all[..|all| - |pending|])
          decreases |pending|
        {
          ghost var n := |all| - |pending|;
          assert all[..n + 1] == all[..n] + [pending[0]];
          LinesPush(term.value, all[..n], pending[0]);
          assert (was + LinesFor(term.value, all[..n])) + [Line(term.value, pending[0])]
              == was + (LinesFor(term.value, all[..n]) + [Line(term.value, pending[0])]);
          assert LinesFor(term.value, all[..n]) + [] == LinesFor(term.value, all[..n]);
          var next := pending[0];
          pending := pending[1..];
          if next != "" {
            writes := writes + [Line(term.value, next)];
          }
        }
        assert |pending| == 0 && all[..|all| - |pending|] == all;
      }
    }

    method OnData(from: TermId, data: string)
      requires Valid() && Enabled(State(), Data(from, data))
      modifies this
      ensures State() == Step(old(State()), Data(from, data)) && Valid()
    {
      StepInv(State(), Data(from, data));
      outputBuf := outputBuf + data;
      OnDataChunk(data);
    }

    method OnExit(exited: TermId)
      requires Valid() && Enabled(State(), Exit(exited))
      modifies this
      ensures State() == Step(old(State()), Exit(exited)) && Valid()
    {
      StepInv(State(), Exit(exited));
      term := None;
      alive := alive - {exited};
    }

    method DestroyTerminal()
      requires Valid()
      modifies this
      ensures State() == Step(old(State()), Destroy) && Valid()
    {
      StepInv(State(), Destroy);
      term := None;
    }
  }
}
