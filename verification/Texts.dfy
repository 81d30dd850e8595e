/** String operations of JavaScript that several components use. */
module Texts {
  import opened Sequences

  /** The characters `trim` removes and `\s` matches: white space and line terminators. */
  predicate IsSpace(c: char) {
    || c in "\t\n\r \U{0B}\U{0C}\U{A0}\U{1680}\U{2028}\U{2029}\U{202F}\U{205F}\U{3000}\U{FEFF}"
    || '\U{2000}' <= c <= '\U{200A}'
  }

  function TrimStart(s: string): string {
    if s != [] && IsSpace(s[0]) then TrimStart(s[1..]) else s
  }

  function TrimEnd(s: string): string {
    if s != [] && IsSpace(Last(s)) then TrimEnd(DropLast(s)) else s
  }

  function Trim(s: string): string {
    TrimEnd(TrimStart(s))
  }

  predicate AllSpace(s: string) {
    forall c :: c in s ==> IsSpace(c)
  }

  /** Neither begins nor ends with white space. */
  predicate IsTrimmed(s: string) {
    s == "" || (!IsSpace(s[0]) && !IsSpace(Last(s)))
  }

  lemma {:induction false} TrimStartIs(a: string, t: string)
    requires AllSpace(a) && (t == "" || !IsSpace(t[0]))
    ensures TrimStart(a + t) == t
  {
    hide IsSpace;
    if a == "" {
      assert a + t == t;
    } else {
      assert a[0] in a && (a + t)[1..] == a[1..] + t;
      TrimStartIs(a[1..], t);
    }
  }

  lemma {:induction false} TrimEndIs(t: string, b: string)
    requires AllSpace(b) && (t == "" || !IsSpace(Last(t)))
    ensures TrimEnd(t + b) == t
  {
    hide IsSpace;
    if b == "" {
      assert t + b == t;
    } else {
      assert Last(b) in b && DropLast(t + b) == t + DropLast(b);
      assert forall c :: c in DropLast(b) ==> c in b;
      TrimEndIs(t, DropLast(b));
    }
  }

  /** A text is trimmed to what is between the white space at its ends. */
  lemma TrimIs(a: string, t: string, b: string)
    requires AllSpace(a) && AllSpace(b) && IsTrimmed(t)
    ensures Trim(a + t + b) == t
  {
    hide IsSpace;
    if t == "" {
      assert a + t + b == (a + b) + "";
      TrimStartIs(a + b, "");
      assert TrimEnd("") == "";
    } else {
      assert a + t + b == a + (t + b);
      TrimStartIs(a, t + b);
      TrimEndIs(t, b);
    }
  }

  lemma {:induction false} TrimStartSplit(s: string) returns (a: string)
    ensures s == a + TrimStart(s) && AllSpace(a) && (TrimStart(s) == "" || !IsSpace(TrimStart(s)[0]))
  {
    hide IsSpace;
    if s != "" && IsSpace(s[0]) {
      a := TrimStartSplit(s[1..]);
      a := [s[0]] + a;
    } else {
      a := "";
    }
  }

  lemma {:induction false} TrimEndSplit(s: string) returns (b: string)
    ensures s == TrimEnd(s) + b && AllSpace(b) && (TrimEnd(s) == "" || !IsSpace(Last(TrimEnd(s))))
  {
    hide IsSpace;
    if s != "" && IsSpace(Last(s)) {
      b := TrimEndSplit(DropLast(s));
      b := b + [Last(s)];
    } else {
      b := "";
    }
  }

  lemma TrimSplit(s: string) returns (a: string, b: string)
    ensures s == a + Trim(s) + b && AllSpace(a) && AllSpace(b) && IsTrimmed(Trim(s))
  {
    hide IsSpace;
    a := TrimStartSplit(s);
    b := TrimEndSplit(TrimStart(s));
    if Trim(s) != "" {
      assert Trim(s)[0] == TrimStart(s)[0];
    }
  }

  lemma TrimTwice(s: string)
    ensures Trim(Trim(s)) == Trim(s)
  {
    hide Trim, IsSpace;
    var a, b := TrimSplit(s);
    TrimIs("", Trim(s), "");
    assert "" + Trim(s) + "" == Trim(s);
  }

  /** White space in front plays no part. */
  lemma TrimSkips(a: string, s: string)
    requires AllSpace(a)
    ensures Trim(a + s) == Trim(s)
  {
    hide Trim, IsSpace;
    var b, c := TrimSplit(s);
    TrimIs(a + b, Trim(s), c);
    assert (a + b) + Trim(s) + c == a + s;
  }

  /** `text.trim().toLowerCase()`; `lower` is `toLowerCase`. */
  function Normal(lower: string -> string, text: string): string {
    lower(Trim(text))
  }

  predicate OccursAt(text: string, part: string, i: int) {
    0 <= i <= |text| - |part| && text[i..i + |part|] == part
  }

  /** `text.includes(part)` */
  predicate Includes(text: string, part: string) {
    exists i :: 0 <= i <= |text| && OccursAt(text, part, i)
  }

  // ----- lines -----

  /** `text.split('\n')` */
  function Split(text: string): (parts: seq<string>)
    ensures parts != []
  {
    if text == [] then [""]
    else
      var before := Split(DropLast(text));
      if Last(text) == '\n' then before + [""] else DropLast(before) + [Last(before) + [Last(text)]]
  }

  /** The lines that are complete, and what is left for later. */
  function Lines(text: string): seq<string> {
    DropLast(Split(text))
  }

  function Rest(text: string): string {
    Last(Split(text))
  }

  predicate OneLine(text: string) {
    '\n' !in text
  }

  predicate AllOneLine(lines: seq<string>) {
    forall l :: l in lines ==> OneLine(l)
  }

  lemma SplitPush(text: string, c: char)
    ensures Split(text + [c]) == if c == '\n' then Split(text) + [""] else Lines(text) + [Rest(text) + [c]]
  {
    assert DropLast(text + [c]) == text;
  }

  lemma {:induction false} SplitOneLine(text: string)
    requires OneLine(text)
    ensures Split(text) == [text]
  {
    if text != [] {
      assert forall c :: c in DropLast(text) ==> c in text;
      SplitOneLine(DropLast(text));
      assert DropLast(text) + [Last(text)] == text;
    }
  }

  lemma {:induction false} RestOneLine(text: string)
    ensures OneLine(Rest(text)) && AllOneLine(Lines(text))
  {
    if text != [] {
      RestOneLine(DropLast(text));
      assert Split(DropLast(text)) == Lines(DropLast(text)) + [Rest(DropLast(text))];
    }
  }
}
