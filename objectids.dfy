/**
 * Document ids. A stored document's `_id` is modelled as a natural number; its
 * text form (what `_id.toString()` yields and what a client puts in a path or a
 * query) is the canonical decimal numeral of that number. Casting a client string
 * to an id (what Mongoose does before `findById`, `updateOne` or `find`) succeeds
 * exactly on canonical numerals and fails otherwise, as a cast of a malformed
 * ObjectId does.
 */
module ObjectIds {
  import opened Js

  predicate IsDigit(c: char)
  {
    '0' <= c <= '9'
  }

  predicate AllDigits(s: string)
  {
    forall k :: 0 <= k < |s| ==> IsDigit(s[k])
  }

  function Digit(d: nat): (c: char)
    requires d < 10
    ensures IsDigit(c)
  {
    (('0' as int) + d) as char
  }

  function DigitValue(c: char): (d: nat)
    requires IsDigit(c)
    ensures d < 10 && Digit(d) == c
  {
    (c as int) - ('0' as int)
  }

  /** `_id.toString()`: the decimal numeral of `n`, without leading zeros. */
  function IdText(n: nat): (s: string)
    decreases n
  {
    if n < 10 then [Digit(n)] else IdText(n / 10) + [Digit(n % 10)]
  }

  /** A numeral as the cast accepts it: non-empty, digits only, no leading zero. */
  predicate IsCanonical(s: string)
  {
    |s| > 0 && AllDigits(s) && (s[0] == '0' ==> |s| == 1)
  }

  function NumeralValue(s: string): nat
    requires AllDigits(s)
    decreases |s|
  {
    if s == [] then 0 else 10 * NumeralValue(s[..|s| - 1]) + DigitValue(s[|s| - 1])
  }

  /** Casting a client string to an id: `None` is the cast error of a malformed id. */
  function ParseId(s: string): (r: Option<nat>)
    ensures r.Some? <==> IsCanonical(s)
  {
    if IsCanonical(s) then Some(NumeralValue(s)) else None
  }

  lemma {:induction false} IdTextShape(n: nat)
    ensures IsCanonical(IdText(n)) && NumeralValue(IdText(n)) == n
    decreases n
  {
    if n >= 10 {
      IdTextShape(n / 10);
      var p := IdText(n / 10);
      var d := n % 10;
      var s := p + [Digit(d)];
      assert s[..|s| - 1] == p;
      assert s[0] == p[0];
      assert AllDigits(s) by {
        forall k | 0 <= k < |s| ensures IsDigit(s[k]) {
          if k < |p| { assert s[k] == p[k]; }
        }
      }
      assert DigitValue(Digit(d)) == d;
      assert NumeralValue(s) == 10 * NumeralValue(p) + d;
      assert 10 * (n / 10) + d == n;
    }
  }

  /** Every id's text casts back to that id. */
  lemma ParseIdText(n: nat)
    ensures ParseId(IdText(n)) == Some(n)
  {
    IdTextShape(n);
  }

  /** A canonical numeral with a leading non-zero digit denotes a positive number. */
  lemma {:induction false} LeadingDigitPositive(s: string)
    requires IsCanonical(s) && s[0] != '0'
    ensures NumeralValue(s) >= 1
    decreases |s|
  {
    if |s| > 1 {
      var p := s[..|s| - 1];
      assert p[0] == s[0];
      LeadingDigitPositive(p);
    }
  }

  /** A string that casts to an id is that id's text: the text form is canonical. */
  lemma {:induction false} IdTextOfParsed(s: string, n: nat)
    requires ParseId(s) == Some(n)
    ensures IdText(n) == s
    decreases |s|
  {
    if |s| > 1 {
      var p := s[..|s| - 1];
      var d := DigitValue(s[|s| - 1]);
      assert p[0] == s[0];
      assert IsCanonical(p);
      LeadingDigitPositive(p);
      var m := NumeralValue(p);
      assert n == 10 * m + d;
      assert n / 10 == m && n % 10 == d;
      IdTextOfParsed(p, m);
      assert s == p + [s[|s| - 1]];
    }
  }

  /** Distinct ids have distinct texts, so at most one document matches an id string. */
  lemma IdTextInjective(m: nat, n: nat)
    ensures IdText(m) == IdText(n) <==> m == n
  {
    if IdText(m) == IdText(n) {
      ParseIdText(m);
      ParseIdText(n);
    }
  }
}
