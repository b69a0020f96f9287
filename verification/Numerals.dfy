/** Texts of numbers with dots between them. */
module Numerals {
  predicate IsDigit(c: char) { '0' <= c <= '9' }

  /** `text.split('.')` */
  function Split(s: string): (r: seq<string>)
    ensures |r| >= 1
  {
    if s == [] then [[]]
    else
      var rest := Split(s[1..]);
      if s[0] == '.' then [[]] + rest else [[s[0]] + rest[0]] + rest[1..]
  }

  function Value(digits: string): nat {
    if digits == [] then 0
    else
      var d := digits[|digits| - 1];
      10 * Value(digits[..|digits| - 1]) + if IsDigit(d) then d as int - '0' as int else 0
  }

  // ---- What they mean ----

  const DIGITS: string := "0123456789"

  /** The decimal digits of a number. */
  function Numeral(n: nat): string {
    if n < 10 then [DIGITS[n]] else Numeral(n / 10) + [DIGITS[n % 10]]
  }

  /** Texts with a dot between each two. */
  function Joined(parts: seq<string>): string
    requires parts != []
  {
    if |parts| == 1 then parts[0] else parts[0] + "." + Joined(parts[1..])
  }

  lemma {:induction false} ValueOfNumeral(n: nat)
    ensures Value(Numeral(n)) == n
    ensures Numeral(n) != [] && forall c :: c in Numeral(n) ==> '0' <= c <= '9'
  {
    DigitsAre(n % 10);
    if n < 10 {
      assert Numeral(n)[..0] == [];
    } else {
      ValueOfNumeral(n / 10);
      assert Numeral(n)[..|Numeral(n)| - 1] == Numeral(n / 10);
    }
  }

  lemma DigitsAre(d: nat)
    requires d < 10
    ensures '0' <= DIGITS[d] <= '9' && DIGITS[d] as int - '0' as int == d
  {
  }

  function PowerOfTen(k: nat): nat { if k == 0 then 1 else 10 * PowerOfTen(k - 1) }

  lemma {:induction false} NumeralLength(n: nat, k: nat)
    requires k >= 1
    ensures |Numeral(n)| <= k <==> n < PowerOfTen(k)
  {
    if n >= 10 && k > 1 { NumeralLength(n / 10, k - 1); }
    if n >= 10 && k == 1 { ValueOfNumeral(n / 10); }
    if n < 10 { PowerAtLeast(k); }
  }

  lemma {:induction false} PowerAtLeast(k: nat)
    requires k >= 1
    ensures PowerOfTen(k) >= 10
  {
    if k > 1 { PowerAtLeast(k - 1); }
  }

  /** Splitting gives back the texts that were joined, when they hold no dot. */
  lemma {:induction false} SplitJoined(parts: seq<string>)
    requires parts != [] && forall part :: part in parts ==> '.' !in part
    ensures Split(Joined(parts)) == parts
  {
    if |parts| == 1 {
      SplitOne(parts[0]);
    } else {
      SplitJoined(parts[1..]);
      SplitFirst(parts[0], Joined(parts[1..]));
    }
  }

  /** The text of numbers with dots between them. */
  function Dotted(numbers: seq<nat>): string
    requires numbers != []
  {
    Joined(seq(|numbers|, k requires 0 <= k < |numbers| => Numeral(numbers[k])))
  }

  lemma SplitDotted(numbers: seq<nat>)
    requires numbers != []
    ensures |Split(Dotted(numbers))| == |numbers|
    ensures forall k :: 0 <= k < |numbers| ==> Split(Dotted(numbers))[k] == Numeral(numbers[k]) && Value(Numeral(numbers[k])) == numbers[k]
  {
    var parts := seq(|numbers|, k requires 0 <= k < |numbers| => Numeral(numbers[k]));
    forall k | 0 <= k < |numbers|
      ensures '.' !in parts[k] && Value(Numeral(numbers[k])) == numbers[k]
    {
      ValueOfNumeral(numbers[k]);
    }
    SplitJoined(parts);
  }

  lemma {:induction false} SplitOne(part: string)
    requires '.' !in part
    ensures Split(part) == [part]
  {
    if part != [] {
      SplitOne(part[1..]);
      assert [part[0]] + part[1..] == part;
    }
  }

  lemma {:induction false} SplitFirst(part: string, rest: string)
    requires '.' !in part
    ensures Split(part + "." + rest) == [part] + Split(rest)
  {
    var s := part + "." + rest;
    if part == [] {
      assert s == "." + rest && s[1..] == rest;
    } else {
      SplitFirst(part[1..], rest);
      assert s[1..] == part[1..] + "." + rest;
      assert [part[0]] + part[1..] == part;
    }
  }
}
