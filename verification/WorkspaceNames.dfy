/** Workspace names made into ids (agent/src/workspace.ts). */
module WorkspaceNames {
  import opened Sequences
  import opened Texts

  /** `\w` */
  predicate IsWord(c: char) {
    'a' <= c <= 'z' || 'A' <= c <= 'Z' || '0' <= c <= '9' || c == '_'
  }

  predicate IsKept(c: char) {
    IsWord(c) || IsSpace(c) || c == '-'
  }

  predicate IsSeparator(c: char) {
    IsSpace(c) || c == '_'
  }

  predicate IsDash(c: char) {
    c == '-'
  }

  /** Every maximal run of the class becomes one dash. */
  function DashRuns(s: string, inClass: char -> bool): string {
    if s == "" then ""
    else
      var before := DashRuns(DropLast(s), inClass);
      if !inClass(Last(s)) then before + [Last(s)]
      else if |s| > 1 && inClass(s[|s| - 2]) then before
      else before + "-"
  }

  function StripStart(s: string): string {
    if s != "" && s[0] == '-' then s[1..] else s
  }

  function StripEnd(s: string): string {
    if s != "" && Last(s) == '-' then DropLast(s) else s
  }

  /** `nfkd` is the Unicode decomposition. */
  function Slugify(nfkd: string -> string, value: string): string {
    var kept := Filter(nfkd(Trim(value)), IsKept);
    var normalized := StripEnd(StripStart(DashRuns(DashRuns(kept, IsSeparator), IsDash)));
    if normalized == "" then "project" else normalized
  }

  predicate Reserved(name: string) {
    name == "app" || name == "local" || name == "workspace"
  }

  function Sanitize(nfkd: string -> string, value: string): string {
    var normalized := Slugify(nfkd, value);
    if Reserved(normalized) then "" else normalized
  }

  // ----- what a slug looks like -----

  predicate IsSlugChar(c: char) {
    'a' <= c <= 'z' || 'A' <= c <= 'Z' || '0' <= c <= '9' || c == '-'
  }

  predicate AllSlugChars(s: string) {
    forall c :: c in s ==> IsSlugChar(c)
  }

  predicate NoDoubleDash(s: string) {
    |s| <= 1 || (NoDoubleDash(DropLast(s)) && !(s[|s| - 2] == '-' && Last(s) == '-'))
  }

  /** Not empty, over [A-Za-z0-9-], with no dash at either end and no two in a row. */
  predicate SlugShaped(s: string) {
    s != "" && AllSlugChars(s) && s[0] != '-' && Last(s) != '-' && NoDoubleDash(s)
  }

  /** An id that can be stored and read back. */
  predicate IsId(s: string) {
    SlugShaped(s) && !Reserved(s)
  }

  /** Decomposition leaves ASCII alone. */
  ghost predicate FixesAscii(nfkd: string -> string) {
    forall s :: (forall c :: c in s ==> c < '\U{80}') ==> nfkd(s) == s
  }

  lemma {:induction false} SeparatorsGone(s: string)
    requires forall c :: c in s ==> IsKept(c)
    ensures AllSlugChars(DashRuns(s, IsSeparator))
  {
    if s != "" {
      hide IsSpace;
      assert Last(s) in s && forall c :: c in DropLast(s) ==> c in s;
      SeparatorsGone(DropLast(s));
    }
  }

  lemma {:induction false} DashRunsChars(s: string)
    requires AllSlugChars(s)
    ensures AllSlugChars(DashRuns(s, IsDash))
  {
    if s != "" {
      assert Last(s) in s && forall c :: c in DropLast(s) ==> c in s;
      DashRunsChars(DropLast(s));
    }
  }

  lemma {:induction false} DashRunsShape(s: string)
    ensures var r := DashRuns(s, IsDash);
            && NoDoubleDash(r)
            && (r == "" <==> s == "")
            && (s != "" ==> (Last(r) == '-' <==> Last(s) == '-'))
  {
    if s != "" {
      DashRunsShape(DropLast(s));
      var before := DashRuns(DropLast(s), IsDash);
      assert DropLast(before + [Last(s)]) == before;
    }
  }

  lemma {:induction false} NoDoubleDashTail(s: string)
    requires NoDoubleDash(s) && s != ""
    ensures NoDoubleDash(s[1..]) && (|s| > 1 && s[0] == '-' ==> s[1] != '-')
  {
    if |s| > 2 {
      NoDoubleDashTail(DropLast(s));
      assert DropLast(s)[1..] == DropLast(s[1..]);
    }
  }

  lemma StripShape(s: string)
    requires AllSlugChars(s) && NoDoubleDash(s)
    ensures var r := StripEnd(StripStart(s)); r == "" || SlugShaped(r)
  {
    if s != "" {
      NoDoubleDashTail(s);
      var t := StripStart(s);
      assert forall c :: c in t ==> c in s;
      if t != "" {
        assert forall c :: c in DropLast(t) ==> c in t;
      }
    }
  }

  lemma SlugIsShaped(nfkd: string -> string, value: string)
    ensures SlugShaped(Slugify(nfkd, value))
  {
    hide Filter, DashRuns, Trim, IsKept, IsSeparator;
    var kept := Filter(nfkd(Trim(value)), IsKept);
    FilterMembers(nfkd(Trim(value)), IsKept);
    SeparatorsGone(kept);
    DashRunsChars(DashRuns(kept, IsSeparator));
    DashRunsShape(DashRuns(kept, IsSeparator));
    StripShape(DashRuns(DashRuns(kept, IsSeparator), IsDash));
    ProjectShaped();
  }

  lemma ProjectShaped()
    ensures SlugShaped("project") && IsId("project")
  {
    var s := "project";
    assert DropLast(s) == "projec" && DropLast("projec") == "proje" && DropLast("proje") == "proj";
    assert DropLast("proj") == "pro" && DropLast("pro") == "pr" && DropLast("pr") == "p";
  }

  lemma {:induction false} NothingToDash(s: string, inClass: char -> bool)
    requires forall c :: c in s ==> !inClass(c)
    ensures DashRuns(s, inClass) == s
  {
    if s != "" {
      assert Last(s) in s && forall c :: c in DropLast(s) ==> c in s;
      NothingToDash(DropLast(s), inClass);
    }
  }

  lemma {:induction false} SingleDashesStay(s: string)
    requires NoDoubleDash(s)
    ensures DashRuns(s, IsDash) == s
  {
    if |s| > 1 {
      SingleDashesStay(DropLast(s));
    } else if |s| == 1 {
      assert DropLast(s) == "";
    }
  }

  lemma SlugCharFacts(c: char)
    requires IsSlugChar(c)
    ensures IsKept(c) && !IsSeparator(c) && !IsSpace(c) && c < '\U{80}'
  {
  }

  lemma SlugTrimmed(s: string)
    requires SlugShaped(s)
    ensures Trim(s) == s
  {
    hide IsSpace;
    assert s[0] in s && Last(s) in s;
    SlugCharFacts(s[0]);
    SlugCharFacts(Last(s));
  }

  /** A slug is its own slug. */
  lemma SlugOfSlug(nfkd: string -> string, s: string)
    requires FixesAscii(nfkd) && SlugShaped(s)
    ensures Slugify(nfkd, s) == s
  {
    hide Trim, IsKept, IsSeparator, DashRuns, Filter;
    forall c | c in s ensures IsKept(c) && !IsSeparator(c) && c < '\U{80}' {
      SlugCharFacts(c);
    }
    SlugTrimmed(s);
    FilterAll(s, IsKept);
    NothingToDash(s, IsSeparator);
    SingleDashesStay(s);
  }

  lemma SlugifyIdempotent(nfkd: string -> string, value: string)
    requires FixesAscii(nfkd)
    ensures Slugify(nfkd, Slugify(nfkd, value)) == Slugify(nfkd, value)
  {
    SlugIsShaped(nfkd, value);
    SlugOfSlug(nfkd, Slugify(nfkd, value));
  }

  /** Sanitizing gives an id or nothing, and leaves an id as it is. */
  lemma SanitizeGivesId(nfkd: string -> string, value: string)
    ensures Sanitize(nfkd, value) == "" || IsId(Sanitize(nfkd, value))
    ensures FixesAscii(nfkd) && IsId(value) ==> Sanitize(nfkd, value) == value
  {
    hide Slugify, SlugShaped;
    SlugIsShaped(nfkd, value);
    if FixesAscii(nfkd) && IsId(value) {
      SlugOfSlug(nfkd, value);
    }
  }

  /** Blank input is not nothing: it is the project name. */
  lemma BlankIsProject(nfkd: string -> string, value: string)
    requires FixesAscii(nfkd) && Trim(value) == ""
    ensures Sanitize(nfkd, value) == "project"
  {
    assert nfkd("") == "";
  }

  // ----- what the slug of a text is -----

  predicate IsLetterOrDigit(c: char) {
    'a' <= c <= 'z' || 'A' <= c <= 'Z' || '0' <= c <= '9'
  }

  /** What a dash stands for. */
  predicate Breaks(c: char) {
    IsSpace(c) || c == '_' || c == '-'
  }

  predicate BreakWithin(text: string, from: int, to: int) {
    exists i :: from <= i < to && 0 <= i < |text| && Breaks(text[i])
  }

  /** Where the letters and digits are. */
  ghost predicate IsLetters(text: string, at: seq<nat>) {
    && (forall i :: 0 <= i < |at| ==> at[i] < |text| && IsLetterOrDigit(text[at[i]]))
    && (forall i, j :: 0 <= i < j < |at| ==> at[i] < at[j])
    && (forall k :: 0 <= k < |text| && IsLetterOrDigit(text[k]) ==> k in at)
  }

  /** The characters at these places, with a dash between two of them that have a break between them. */
  function Dashed(text: string, at: seq<nat>): string
    requires forall i :: 0 <= i < |at| ==> at[i] < |text|
  {
    if at == [] then ""
    else if |at| == 1 then [text[at[0]]]
    else Dashed(text, DropLast(at)) + (if BreakWithin(text, at[|at| - 2] + 1, Last(at)) then "-" else "")
         + [text[Last(at)]]
  }

  /** The runs of dashes after both replacements. */
  function Middle(text: string): string {
    DashRuns(DashRuns(Filter(text, IsKept), IsSeparator), IsDash)
  }

  lemma {:induction false} SeparatorEnd(kept: string)
    ensures var r := DashRuns(kept, IsSeparator);
            (r == "" <==> kept == "")
            && (kept != "" ==> (Last(r) == '-' <==> IsSeparator(Last(kept)) || Last(kept) == '-'))
  {
    if kept != "" {
      hide IsSpace;
      SeparatorEnd(DropLast(kept));
      DashIsNoSeparator();
    }
  }

  lemma DashIsNoSeparator()
    ensures !IsSeparator('-') && IsKept('-')
  {
  }

  lemma KeptCases(c: char)
    ensures IsKept(c) <==> IsLetterOrDigit(c) || Breaks(c)
    ensures IsLetterOrDigit(c) ==> !Breaks(c) && !IsSeparator(c) && c != '-'
    ensures Breaks(c) <==> IsSeparator(c) || c == '-'
  {
  }

  lemma OneMoreDash(d: string)
    ensures var m := DashRuns(d, IsDash);
            DashRuns(d + "-", IsDash) == if m == "" || Last(m) != '-' then m + "-" else m
  {
    DashRunsShape(d);
    DashRunsPush(d, '-', IsDash);
  }

  lemma LetterPush(text: string, c: char)
    requires IsLetterOrDigit(c)
    ensures Middle(text + [c]) == Middle(text) + [c]
  {
    hide IsSpace, IsSeparator, IsKept, Breaks, IsLetterOrDigit, Filter;
    KeptCases(c);
    FilterPush(text, c, IsKept);
    DashRunsPush(Filter(text, IsKept), c, IsSeparator);
    DashRunsPush(DashRuns(Filter(text, IsKept), IsSeparator), c, IsDash);
  }

  lemma BreakPush(text: string, c: char)
    requires Breaks(c)
    ensures var m := Middle(text);
            Middle(text + [c]) == if m == "" || Last(m) != '-' then m + "-" else m
  {
    hide IsSpace, IsSeparator, IsKept, Breaks, IsLetterOrDigit, Filter, DashRuns;
    var kept := Filter(text, IsKept);
    var d := DashRuns(kept, IsSeparator);
    KeptCases(c);
    FilterPush(text, c, IsKept);
    SeparatorEnd(kept);
    DashRunsPush(kept, c, IsSeparator);
    OneMoreDash(d);
    DashRunsShape(d);
    assert DashRuns(kept + [c], IsSeparator) == d + "-" || (DashRuns(kept + [c], IsSeparator) == d && Last(d) == '-');
  }

  /** One more character: a break adds a dash unless there is one at the end already. */
  lemma MiddlePush(text: string, c: char)
    ensures Middle(text + [c])
         == if IsLetterOrDigit(c) then Middle(text) + [c]
            else if Breaks(c) && (Middle(text) == "" || Last(Middle(text)) != '-') then Middle(text) + "-"
            else Middle(text)
  {
    hide Middle, IsSpace, IsSeparator, Breaks, IsLetterOrDigit;
    KeptCases(c);
    if IsLetterOrDigit(c) {
      LetterPush(text, c);
    } else if Breaks(c) {
      BreakPush(text, c);
    } else {
      OtherPush(text, c);
    }
  }

  lemma OtherPush(text: string, c: char)
    requires !IsKept(c)
    ensures Middle(text + [c]) == Middle(text)
  {
    FilterPush(text, c, IsKept);
    assert Filter(text, IsKept) + [] == Filter(text, IsKept);
  }

  lemma DashRunsPush(s: string, c: char, inClass: char -> bool)
    ensures DashRuns(s + [c], inClass)
         == if !inClass(c) then DashRuns(s, inClass) + [c]
            else if s != "" && inClass(Last(s)) then DashRuns(s, inClass)
            else DashRuns(s, inClass) + "-"
  {
    assert DropLast(s + [c]) == s;
  }

  function LettersOf(text: string): seq<nat> {
    if text == "" then [] else LettersOf(DropLast(text)) + if IsLetterOrDigit(Last(text)) then [|text| - 1] else []
  }

  lemma {:induction false} LettersOfAre(text: string)
    ensures IsLetters(text, LettersOf(text))
  {
    if text != "" {
      hide IsLetterOrDigit;
      LettersOfAre(DropLast(text));
    }
  }

  /** There is one list of such places only. */
  lemma {:induction false} LettersUnique(text: string, at: seq<nat>)
    requires IsLetters(text, at)
    ensures at == LettersOf(text)
  {
    assert at != [] ==> at[0] < |text|;
    if text != "" {
      hide IsLetterOrDigit;
      var n := |text| - 1;
      if IsLetterOrDigit(text[n]) {
        assert n in at;
        LastPlace(text, at);
        LettersUnique(DropLast(text), DropLast(at));
        assert at == DropLast(at) + [n];
      } else {
        LettersUnique(DropLast(text), at);
      }
    }
  }

  lemma LastPlace(text: string, at: seq<nat>)
    requires IsLetters(text, at) && text != "" && |text| - 1 in at
    ensures at != [] && Last(at) == |text| - 1 && IsLetters(DropLast(text), DropLast(at))
  {
    hide IsLetterOrDigit;
    var i :| 0 <= i < |at| && at[i] == |text| - 1;
    assert forall k :: 0 <= k < |at| - 1 ==> at[k] < at[|at| - 1];
    forall k | 0 <= k < |text| - 1 && IsLetterOrDigit(text[k]) ensures k in DropLast(at) {
      assert k in at;
    }
  }

  ghost predicate InText(text: string, at: seq<nat>) {
    forall i :: 0 <= i < |at| ==> at[i] < |text|
  }

  /** Before the first letter and after the last one there is a dash, too, where there is a break. */
  function Framed(text: string, at: seq<nat>): string
    requires forall i :: 0 <= i < |at| ==> at[i] < |text|
  {
    if at == [] then (if BreakWithin(text, 0, |text|) then "-" else "")
    else (if BreakWithin(text, 0, at[0]) then "-" else "") + Dashed(text, at)
         + (if BreakWithin(text, Last(at) + 1, |text|) then "-" else "")
  }

  lemma {:induction false} DashedLonger(text: string, c: char, at: seq<nat>)
    requires InText(text, at)
    ensures Dashed(text + [c], at) == Dashed(text, at)
  {
    hide Breaks, BreakWithin;
    if |at| > 1 {
      DashedLonger(text, c, DropLast(at));
      BreakLonger(text, c, at[|at| - 2] + 1, Last(at));
    }
  }

  lemma BreakLonger(text: string, c: char, from: int, to: int)
    requires 0 <= from && to <= |text|
    ensures BreakWithin(text + [c], from, to) <==> BreakWithin(text, from, to)
    ensures from <= |text| ==>
              (BreakWithin(text + [c], from, |text| + 1) <==> BreakWithin(text, from, |text|) || Breaks(c))
  {
    hide Breaks;
    if BreakWithin(text, from, to) {
      var i :| from <= i < to && 0 <= i < |text| && Breaks(text[i]);
      assert Breaks((text + [c])[i]);
    }
    if BreakWithin(text, from, |text|) {
      var i :| from <= i < |text| && Breaks(text[i]);
      assert Breaks((text + [c])[i]);
    }
    assert (text + [c])[|text|] == c;
  }

  lemma NothingAfter(text: string)
    ensures !BreakWithin(text, |text|, |text|)
  {
  }

  lemma {:induction false} DashedEnd(text: string, at: seq<nat>)
    requires InText(text, at) && at != []
    ensures Dashed(text, at) != "" && Last(Dashed(text, at)) == text[Last(at)]
    ensures Dashed(text, at)[0] == text[at[0]]
  {
    if |at| > 1 {
      hide BreakWithin;
      DashedEnd(text, DropLast(at));
    }
  }

  /** One more letter, at the end. */
  lemma DashedPush(text: string, c: char, at: seq<nat>)
    requires InText(text, at)
    ensures Dashed(text + [c], at + [|text|])
         == if at == [] then [c]
            else Dashed(text, at) + (if BreakWithin(text, Last(at) + 1, |text|) then "-" else "") + [c]
  {
    hide Breaks, BreakWithin;
    var more := at + [|text|];
    DashedLonger(text, c, at);
    assert DropLast(more) == at && (text + [c])[|text|] == c;
    if at != [] {
      BreakLonger(text, c, Last(at) + 1, |text|);
      assert more[|more| - 2] == Last(at);
    }
  }

  lemma FramedLetter(text: string, c: char, at: seq<nat>)
    requires InText(text, at) && IsLetterOrDigit(c)
    ensures Framed(text + [c], at + [|text|]) == Framed(text, at) + [c]
  {
    hide IsLetterOrDigit, Breaks, BreakWithin, Dashed;
    var more := at + [|text|];
    DashedPush(text, c, at);
    NothingAfter(text + [c]);
    BreakLonger(text, c, 0, if at == [] then |text| else at[0]);
    assert more[0] == if at == [] then |text| else at[0];
    assert Last(more) + 1 == |text + [c]|;
  }

  lemma FramedOther(text: string, c: char, at: seq<nat>)
    requires InText(text, at) && (at != [] ==> text[Last(at)] != '-')
    ensures Framed(text + [c], at)
         == if Breaks(c) && (Framed(text, at) == "" || Last(Framed(text, at)) != '-') then Framed(text, at) + "-"
            else Framed(text, at)
  {
    hide Breaks, BreakWithin, Dashed;
    if at == [] {
      BreakLonger(text, c, 0, |text|);
    } else {
      DashedLonger(text, c, at);
      DashedEnd(text, at);
      BreakLonger(text, c, 0, at[0]);
      BreakLonger(text, c, Last(at) + 1, |text|);
    }
  }

  lemma {:induction false} MiddleIs(text: string)
    ensures IsLetters(text, LettersOf(text)) && Middle(text) == Framed(text, LettersOf(text))
  {
    LettersOfAre(text);
    if text != "" {
      hide IsLetterOrDigit, Breaks, Middle, Framed;
      var init, c, at := DropLast(text), Last(text), LettersOf(DropLast(text));
      assert text == init + [c];
      LettersOfAre(init);
      MiddleIs(init);
      MiddlePush(init, c);
      KeptCases(c);
      if IsLetterOrDigit(c) {
        FramedLetter(init, c, at);
      } else {
        if at != [] {
          KeptCases(init[Last(at)]);
        }
        FramedOther(init, c, at);
        assert LettersOf(text) == at;
      }
    }
  }

  /** What a name becomes: its letters and digits in order, with one dash between two of them exactly when
      there is white space, an underscore or a dash between them; "project" when there are none. */
  function Dashes(text: string): string {
    LettersOfAre(text);
    if LettersOf(text) == [] then "project" else Dashed(text, LettersOf(text))
  }

  lemma Stripped(before: string, d: string, after: string)
    requires (before == "" || before == "-") && (after == "" || after == "-")
    requires d != "" && d[0] != '-' && Last(d) != '-'
    ensures StripEnd(StripStart(before + d + after)) == d
  {
    assert StripStart(before + d + after) == d + after;
  }

  /** That is its slug, wherever the letters and digits are. */
  lemma SlugIs(nfkd: string -> string, value: string, at: seq<nat>)
    requires IsLetters(nfkd(Trim(value)), at)
    ensures Slugify(nfkd, value) == if at == [] then "project" else Dashed(nfkd(Trim(value)), at)
    ensures Slugify(nfkd, value) == Dashes(nfkd(Trim(value)))
  {
    hide IsLetterOrDigit, Breaks, BreakWithin, Dashed, Filter, DashRuns, Trim, IsLetters, StripStart, StripEnd;
    var text := nfkd(Trim(value));
    LettersUnique(text, at);
    MiddleIs(text);
    if at == [] {
      assert StripEnd(StripStart("")) == "" && StripEnd(StripStart("-")) == "" by { StrippedDash(); }
    } else {
      LettersDiffer(text, at);
      DashedEnd(text, at);
      var before := if BreakWithin(text, 0, at[0]) then "-" else "";
      var after := if BreakWithin(text, Last(at) + 1, |text|) then "-" else "";
      Stripped(before, Dashed(text, at), after);
    }
  }

  lemma StrippedDash()
    ensures StripEnd(StripStart("")) == "" && StripEnd(StripStart("-")) == ""
  {
  }

  lemma LettersDiffer(text: string, at: seq<nat>)
    requires IsLetters(text, at) && at != []
    ensures InText(text, at) && text[at[0]] != '-' && text[Last(at)] != '-'
  {
    KeptCases(text[at[0]]);
    KeptCases(text[Last(at)]);
  }
}
