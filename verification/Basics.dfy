/** What several models share: an optional value, lists without repetition, sums, decimal digits. */
module Basics {

  datatype Option<T> = None | Some(value: T)

  predicate Distinct<T(==)>(s: seq<T>) {
    forall i, j | 0 <= i < j < |s| :: s[i] != s[j]
  }

  /** The sum of an amount over a list. */
  function Total<T>(items: seq<T>, amount: T -> nat): nat {
    if items == [] then 0 else amount(items[0]) + Total(items[1..], amount)
  }

  /** A sum is additive, */
  lemma {:induction false} TotalConcat<T>(a: seq<T>, b: seq<T>, amount: T -> nat)
    ensures Total(a + b, amount) == Total(a, amount) + Total(b, amount)
  {
    if a == [] {
      assert a + b == b;
    } else {
      assert (a + b)[1..] == a[1..] + b;
      TotalConcat(a[1..], b, amount);
    }
  }

  /** and the amount of a single item. */
  lemma {:induction false} TotalOne<T>(x: T, amount: T -> nat)
    ensures Total([x], amount) == amount(x)
  {
    assert [x][1..] == [];
  }

  lemma {:induction false} TotalLast<T>(items: seq<T>, amount: T -> nat)
    requires items != []
    ensures Total(items, amount) == Total(items[..|items| - 1], amount) + amount(items[|items| - 1])
  {
    var init, last := items[..|items| - 1], items[|items| - 1];
    assert items == init + [last];
    TotalConcat(init, [last], amount);
    TotalOne(last, amount);
  }

  function Digit(d: nat): char
    requires d < 10
  {
    "0123456789"[d]
  }

  function Decimal(n: nat): string {
    if n < 10 then [Digit(n)] else Decimal(n / 10) + [Digit(n % 10)]
  }

  /** The number a string of digits stands for. */
  function Value(digits: string): nat {
    if digits == [] then 0
    else
      var last := digits[|digits| - 1];
      10 * Value(digits[..|digits| - 1]) + if '0' <= last <= '9' then last as nat - '0' as nat else 0
  }

  /** A decimal number consists of digits, has no leading zero, and stands for its number. */
  lemma {:induction false} DecimalReads(n: nat)
    ensures Decimal(n) != [] && Value(Decimal(n)) == n
    ensures forall c | c in Decimal(n) :: '0' <= c <= '9'
    ensures n > 0 ==> Decimal(n)[0] != '0'
  {
    if n >= 10 {
      DecimalReads(n / 10);
      assert Decimal(n)[..|Decimal(n)| - 1] == Decimal(n / 10);
    } else {
      assert Decimal(n)[..0] == [];
    }
  }
}
