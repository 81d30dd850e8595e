/** The name for a new terminal (`nextTerminalName` in nuxt-ui/pages/chat.vue). */
module TerminalNames {
  import opened Options
  import opened Sequences
  import opened Texts

  const DIGITS := "0123456789"

  /** A number in a template string. */
  function Decimal(n: nat): (s: string)
    ensures s != ""
  {
    if n < 10 then [DIGITS[n]] else Decimal(n / 10) + [DIGITS[n % 10]]
  }

  function NameFor(idx: nat): string {
    "DevBridge " + Decimal(idx)
  }

  /** The trimmed names of the terminals there are; terminals without a name do not count. */
  function Existing(terminals: seq<Option<string>>): set<string> {
    (set t | t in terminals :: Trim(t.GetOr(""))) - {""}
  }

  predicate IsDigit(c: char) {
    '0' <= c <= '9'
  }

  /** The number that digits stand for. */
  function Value(digits: string): int {
    if digits == "" then 0 else 10 * Value(DropLast(digits)) + (Last(digits) as int - '0' as int)
  }

  /** The decimal text of a number: digits that stand for it, without a zero in front. */
  predicate Denotes(text: string, n: nat) {
    && text != ""
    && (forall c :: c in text ==> IsDigit(c))
    && (|text| > 1 ==> text[0] != '0')
    && Value(text) == n
  }

  lemma DigitIs(n: nat)
    requires n < 10
    ensures IsDigit(DIGITS[n]) && DIGITS[n] as int - '0' as int == n && (DIGITS[n] == '0' <==> n == 0)
  {
  }

  lemma {:induction false} DecimalDenotes(n: nat)
    ensures Denotes(Decimal(n), n)
    ensures n > 0 ==> Decimal(n)[0] != '0'
  {
    DigitIs(n % 10);
    if n >= 10 {
      DecimalDenotes(n / 10);
      assert DropLast(Decimal(n)) == Decimal(n / 10);
    } else {
      assert DropLast([DIGITS[n]]) == "";
    }
  }

  lemma DigitInjective(a: nat, b: nat)
    requires a < 10 && b < 10 && DIGITS[a] == DIGITS[b]
    ensures a == b
  {
  }

  lemma OneDigit(n: nat)
    ensures |Decimal(n)| == 1 <==> n < 10
  {
  }

  lemma {:induction false} DecimalInjective(a: nat, b: nat)
    requires Decimal(a) == Decimal(b)
    ensures a == b
    decreases a + b
  {
    var lastA, lastB := Last(Decimal(a)), Last(Decimal(b));
    assert lastA == DIGITS[a % 10] && lastB == DIGITS[b % 10];
    DigitInjective(a % 10, b % 10);
    OneDigit(a);
    OneDigit(b);
    if a >= 10 {
      assert DropLast(Decimal(a)) == Decimal(a / 10) && DropLast(Decimal(b)) == Decimal(b / 10);
      DecimalInjective(a / 10, b / 10);
    }
  }

  lemma NamesDiffer(a: nat, b: nat)
    requires NameFor(a) == NameFor(b)
    ensures a == b
  {
    assert NameFor(a)[10..] == Decimal(a) && NameFor(b)[10..] == Decimal(b);
    DecimalInjective(a, b);
  }

  ghost function NamesBelow(idx: nat): (names: set<string>)
    requires 1 <= idx
  {
    if idx == 1 then {} else NamesBelow(idx - 1) + {NameFor(idx - 1)}
  }

  lemma {:induction false} NamesBelowMember(idx: nat, name: string)
    requires 1 <= idx && name in NamesBelow(idx)
    ensures exists k: nat :: 1 <= k < idx && name == NameFor(k)
  {
    if name != NameFor(idx - 1) {
      NamesBelowMember(idx - 1, name);
    }
  }

  /** Different indices have different names, so there are as many names as indices. */
  lemma {:induction false} NamesBelowCount(idx: nat)
    requires 1 <= idx
    ensures |NamesBelow(idx)| == idx - 1
  {
    if idx > 1 {
      NamesBelowCount(idx - 1);
      if NameFor(idx - 1) in NamesBelow(idx - 1) {
        NamesBelowMember(idx - 1, NameFor(idx - 1));
        var k: nat :| 1 <= k < idx - 1 && NameFor(idx - 1) == NameFor(k);
        NamesDiffer(idx - 1, k);
      }
    }
  }

  lemma SubsetCount(a: set<string>, b: set<string>)
    requires a <= b
    ensures |a| <= |b|
  {
    assert b == a + (b - a);
  }

  /** Pigeonhole: the names taken in a row from 1 are no more than the names there are. */
  lemma TakenInARow(existing: set<string>, idx: nat)
    requires 1 <= idx && NamesBelow(idx) <= existing
    ensures idx - 1 <= |existing|
  {
    NamesBelowCount(idx);
    SubsetCount(NamesBelow(idx), existing);
  }

  /** The least index from 1 whose name is free. */
  ghost predicate LeastFree(existing: set<string>, idx: nat) {
    1 <= idx && NameFor(idx) !in existing && forall k :: 1 <= k < idx ==> NameFor(k) in existing
  }

  /** The search ends after at most one try more than there are names, at the least free index. */
  method NextTerminalName(terminals: seq<Option<string>>) returns (name: string, idx: nat)
    ensures name == NameFor(idx) && LeastFree(Existing(terminals), idx)
    ensures name == "DevBridge " + name[10..] && Denotes(name[10..], idx)
    ensures idx <= |Existing(terminals)| + 1
  {
    hide Existing, Decimal;
    var existing := Existing(terminals);
    idx := 1;
    while NameFor(idx) in existing
      invariant 1 <= idx && NamesBelow(idx) <= existing
      invariant forall k :: 1 <= k < idx ==> NameFor(k) in existing
      decreases |existing| + 1 - idx
    {
      TakenInARow(existing, idx + 1);
      idx := idx + 1;
    }
    TakenInARow(existing, idx);
    name := NameFor(idx);
    assert name[10..] == Decimal(idx);
    DecimalDenotes(idx);
  }
}
