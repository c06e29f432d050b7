/** Python's `sorted(..., key=...)`: a stable sort by string keys, and exactly what determines
    its result.  Keys are compared as Python compares strings, code point by code point. */
module StableSorting {

  predicate Leq(a: string, b: string) {
    a == [] || (b != [] && (a[0] < b[0] || (a[0] == b[0] && Leq(a[1..], b[1..]))))
  }

  /** Strings compare at the first place where they differ; a prefix comes first. */
  lemma {:induction false} LeqIs(a: string, b: string, k: nat)
    requires k <= |a| && k <= |b| && a[..k] == b[..k]
    requires k < |a| && k < |b| ==> a[k] != b[k]
    ensures Leq(a, b) <==> k == |a| || (k < |b| && a[k] < b[k])
  {
    if k > 0 {
      assert a[0] == a[..k][0] == b[..k][0] == b[0];
      assert a[1..][..k - 1] == a[..k][1..] && b[1..][..k - 1] == b[..k][1..];
      LeqIs(a[1..], b[1..], k - 1);
    }
  }

  lemma {:induction false} LeqTotal(a: string, b: string)
    ensures Leq(a, b) || Leq(b, a)
  {
    if a != [] && b != [] && a[0] == b[0] {
      LeqTotal(a[1..], b[1..]);
    }
  }

  lemma {:induction false} LeqAntisymmetric(a: string, b: string)
    requires Leq(a, b) && Leq(b, a)
    ensures a == b
  {
    if a != [] {
      LeqAntisymmetric(a[1..], b[1..]);
      assert a == [a[0]] + a[1..] && b == [b[0]] + b[1..];
    }
  }

  lemma {:induction false} LeqTransitive(a: string, b: string, c: string)
    requires Leq(a, b) && Leq(b, c)
    ensures Leq(a, c)
  {
    if a != [] && a[0] == b[0] == c[0] {
      LeqTransitive(a[1..], b[1..], c[1..]);
    }
  }

  /** Places `x` before every element whose key is not smaller, so ties keep their order. */
  function Insert<T>(x: T, s: seq<T>, key: T -> string): seq<T> {
    if s == [] then [x]
    else if Leq(key(x), key(s[0])) then [x] + s
    else [s[0]] + Insert(x, s[1..], key)
  }

  function Sort<T>(s: seq<T>, key: T -> string): (r: seq<T>)
    ensures |r| == |s|
  {
    if s == [] then [] else
      var rest := Sort(s[1..], key);
      InsertLength(s[0], rest, key);
      Insert(s[0], rest, key)
  }

  lemma {:induction false} InsertLength<T>(x: T, s: seq<T>, key: T -> string)
    ensures |Insert(x, s, key)| == |s| + 1
  {
    if s != [] {
      InsertLength(x, s[1..], key);
    }
  }

  ghost predicate Sorted<T>(s: seq<T>, key: T -> string) {
    forall i, j | 0 <= i < j < |s| :: Leq(key(s[i]), key(s[j]))
  }

  /** The elements of `s` that carry key `k`, in order. */
  function WithKey<T>(s: seq<T>, key: T -> string, k: string): seq<T> {
    if s == [] then []
    else (if key(s[0]) == k then [s[0]] else []) + WithKey(s[1..], key, k)
  }

  lemma {:induction false} WithKeyConcat<T>(a: seq<T>, b: seq<T>, key: T -> string, k: string)
    ensures WithKey(a + b, key, k) == WithKey(a, key, k) + WithKey(b, key, k)
  {
    if a == [] {
      assert a + b == b;
    } else {
      var head := if key(a[0]) == k then [a[0]] else [];
      assert (a + b)[0] == a[0] && (a + b)[1..] == a[1..] + b;
      WithKeyConcat(a[1..], b, key, k);
      assert WithKey(a + b, key, k) == head + (WithKey(a[1..], key, k) + WithKey(b, key, k));
    }
  }

  lemma {:induction false} InsertMultiset<T>(x: T, s: seq<T>, key: T -> string)
    ensures multiset(Insert(x, s, key)) == multiset{x} + multiset(s)
  {
    if s != [] && !Leq(key(x), key(s[0])) {
      InsertMultiset(x, s[1..], key);
      assert s == [s[0]] + s[1..];
    }
  }

  lemma {:induction false} InsertSorted<T>(x: T, s: seq<T>, key: T -> string)
    requires Sorted(s, key)
    ensures Sorted(Insert(x, s, key), key)
  {
    if s == [] {
    } else if Leq(key(x), key(s[0])) {
      forall j | 0 <= j < |s| ensures Leq(key(x), key(s[j])) {
        if j > 0 { LeqTransitive(key(x), key(s[0]), key(s[j])); }
      }
    } else {
      var rest := Insert(x, s[1..], key);
      InsertSorted(x, s[1..], key);
      InsertMultiset(x, s[1..], key);
      LeqTotal(key(x), key(s[0]));
      forall j | 0 <= j < |rest| ensures Leq(key(s[0]), key(rest[j])) {
        assert rest[j] in multiset(rest);
        if rest[j] != x {
          assert rest[j] in s[1..];
        }
      }
    }
  }

  lemma {:induction false} InsertStable<T>(x: T, s: seq<T>, key: T -> string, k: string)
    ensures WithKey(Insert(x, s, key), key, k) == WithKey([x] + s, key, k)
  {
    if s != [] && !Leq(key(x), key(s[0])) {
      InsertStable(x, s[1..], key, k);
      LeqTotal(key(x), key(x));
      assert s == [s[0]] + s[1..];
      WithKeyConcat([x], s, key, k);
      WithKeyConcat([x], s[1..], key, k);
      WithKeyConcat([s[0]], Insert(x, s[1..], key), key, k);
    }
  }

  lemma {:induction false} LeqReflexive(a: string)
    ensures Leq(a, a)
  {
    LeqTotal(a, a);
  }

  /** The result is sorted, a permutation, and stable: equal keys keep their input order. */
  lemma {:induction false} SortIsStableSort<T>(s: seq<T>, key: T -> string)
    ensures Sorted(Sort(s, key), key)
    ensures multiset(Sort(s, key)) == multiset(s)
    ensures forall k :: WithKey(Sort(s, key), key, k) == WithKey(s, key, k)
  {
    if s != [] {
      var rest := Sort(s[1..], key);
      SortIsStableSort(s[1..], key);
      InsertSorted(s[0], rest, key);
      InsertMultiset(s[0], rest, key);
      assert s == [s[0]] + s[1..];
      forall k ensures WithKey(Sort(s, key), key, k) == WithKey(s, key, k) {
        InsertStable(s[0], rest, key, k);
        WithKeyConcat([s[0]], rest, key, k);
        WithKeyConcat([s[0]], s[1..], key, k);
      }
    }
  }

  lemma {:induction false} WithKeyMembers<T>(s: seq<T>, key: T -> string, k: string)
    ensures forall x :: x in WithKey(s, key, k) <==> x in s && key(x) == k
  {
    if s != [] {
      WithKeyMembers(s[1..], key, k);
      assert s == [s[0]] + s[1..];
    }
  }

  /** Being sorted and stable leaves no freedom: such a sequence is the sort. */
  lemma {:induction false} StableSortUnique<T>(s: seq<T>, t: seq<T>, key: T -> string)
    requires Sorted(s, key) && Sorted(t, key)
    requires forall k :: WithKey(s, key, k) == WithKey(t, key, k)
    ensures s == t
  {
    if s == [] {
      if t != [] {
        HeadKeyMinimal(t, s, key);
      }
    } else {
      HeadKeyMinimal(s, t, key);
      HeadKeyMinimal(t, s, key);
      LeqAntisymmetric(key(s[0]), key(t[0]));
      var k0 := key(s[0]);
      assert WithKey(s, key, k0)[0] == s[0] && WithKey(t, key, k0)[0] == t[0];
      forall k ensures WithKey(s[1..], key, k) == WithKey(t[1..], key, k) {
        if k == k0 {
          assert WithKey(s[1..], key, k) == WithKey(s, key, k)[1..];
          assert WithKey(t[1..], key, k) == WithKey(t, key, k)[1..];
        } else {
          assert WithKey(s[1..], key, k) == WithKey(s, key, k);
          assert WithKey(t[1..], key, k) == WithKey(t, key, k);
        }
      }
      StableSortUnique(s[1..], t[1..], key);
      assert s == [s[0]] + s[1..] && t == [t[0]] + t[1..];
    }
  }

  lemma {:induction false} HeadKeyMinimal<T>(s: seq<T>, t: seq<T>, key: T -> string)
    requires s != [] && Sorted(t, key)
    requires forall k :: WithKey(s, key, k) == WithKey(t, key, k)
    ensures t != [] && Leq(key(t[0]), key(s[0]))
  {
    var k := key(s[0]);
    WithKeyMembers(s, key, k);
    WithKeyMembers(t, key, k);
    assert s[0] in WithKey(s, key, k);
    assert s[0] in t;
    var j :| 0 <= j < |t| && t[j] == s[0];
    if j == 0 { LeqReflexive(k); }
  }

  /** Equal keys occur only on equal elements. */
  ghost predicate KeysIdentify<T(!new)>(s: seq<T>, key: T -> string) {
    forall x, y | x in s && y in s && key(x) == key(y) :: x == y
  }

  lemma {:induction false} WithKeyCount<T>(s: seq<T>, key: T -> string, x: T)
    ensures multiset(WithKey(s, key, key(x)))[x] == multiset(s)[x]
  {
    if s != [] {
      WithKeyCount(s[1..], key, x);
      assert s == [s[0]] + s[1..];
    }
  }

  lemma {:induction false} ConstantCount<T>(s: seq<T>, x: T)
    requires forall i | 0 <= i < |s| :: s[i] == x
    ensures multiset(s)[x] == |s|
  {
    if s != [] {
      ConstantCount(s[1..], x);
      assert s == [s[0]] + s[1..];
    }
  }

  /** When keys identify elements, a key class is one element repeated. */
  lemma {:induction false} CopiesOf<T(!new)>(s: seq<T>, t: seq<T>, x: T, key: T -> string)
    requires multiset(s) == multiset(t) && x in s
    requires KeysIdentify(s, key)
    ensures WithKey(t, key, key(x)) == seq(multiset(s)[x], _ => x)
  {
    var b := WithKey(t, key, key(x));
    WithKeyMembers(t, key, key(x));
    forall i | 0 <= i < |b| ensures b[i] == x {
      assert b[i] in b;
      assert b[i] in multiset(t);
      assert b[i] in s;
    }
    WithKeyCount(t, key, x);
    ConstantCount(b, x);
  }

  lemma {:induction false} KeyClassDetermined<T(!new)>(s: seq<T>, t: seq<T>, key: T -> string, k: string)
    requires multiset(s) == multiset(t)
    requires KeysIdentify(s, key)
    ensures WithKey(s, key, k) == WithKey(t, key, k)
  {
    var a, b := WithKey(s, key, k), WithKey(t, key, k);
    WithKeyMembers(s, key, k);
    WithKeyMembers(t, key, k);
    if a != [] || b != [] {
      var x := if a != [] then a[0] else b[0];
      assert x in a || x in b;
      assert x in multiset(s) && x in multiset(t);
      CopiesOf(s, s, x, key);
      CopiesOf(s, t, x, key);
    }
  }

  /** When keys identify elements, the sort forgets the input order. */
  lemma {:induction false} SortForgetsOrder<T(!new)>(s: seq<T>, t: seq<T>, key: T -> string)
    requires multiset(s) == multiset(t)
    requires KeysIdentify(s, key)
    ensures Sort(s, key) == Sort(t, key)
  {
    SortIsStableSort(s, key);
    SortIsStableSort(t, key);
    forall k ensures WithKey(Sort(s, key), key, k) == WithKey(Sort(t, key), key, k) {
      KeyClassDetermined(s, t, key, k);
    }
    StableSortUnique(Sort(s, key), Sort(t, key), key);
  }

  /** The tie that defeats it: exchanging two different elements with one key changes the sort. */
  lemma {:induction false} SortKeepsTieOrder<T>(s: seq<T>, i: nat, j: nat, key: T -> string)
    requires i < j < |s| && s[i] != s[j] && key(s[i]) == key(s[j])
    ensures multiset(s[i := s[j]][j := s[i]]) == multiset(s)
    ensures Sort(s[i := s[j]][j := s[i]], key) != Sort(s, key)
  {
    var t := s[i := s[j]][j := s[i]];
    var k := key(s[i]);
    KeyClassAt(s, i, key);
    KeyClassAt(t, i, key);
    assert s[..i] == t[..i];
    assert WithKey(s, key, k) != WithKey(t, key, k);
    SortIsStableSort(s, key);
    SortIsStableSort(t, key);
  }

  lemma {:induction false} KeyClassAt<T>(s: seq<T>, i: nat, key: T -> string)
    requires i < |s|
    ensures var n := |WithKey(s[..i], key, key(s[i]))|;
      n < |WithKey(s, key, key(s[i]))| && WithKey(s, key, key(s[i]))[n] == s[i]
  {
    var k := key(s[i]);
    WithKeyConcat(s[..i], s[i..], key, k);
    assert s == s[..i] + s[i..];
  }

  function Map<T, U>(f: T -> U, s: seq<T>): (r: seq<U>)
    ensures |r| == |s|
    ensures forall i | 0 <= i < |s| :: r[i] == f(s[i])
  {
    seq(|s|, i requires 0 <= i < |s| => f(s[i]))
  }

  lemma MapCons<T, U>(f: T -> U, x: T, s: seq<T>)
    ensures Map(f, [x] + s) == [f(x)] + Map(f, s)
  {}

  lemma {:induction false} InsertMap<T, U>(f: T -> U, x: T, s: seq<T>, key: T -> string, key': U -> string)
    requires key'(f(x)) == key(x)
    requires forall y | y in s :: key'(f(y)) == key(y)
    ensures Insert(f(x), Map(f, s), key') == Map(f, Insert(x, s, key))
  {
    if s != [] {
      assert s == [s[0]] + s[1..];
      MapCons(f, s[0], s[1..]);
      if !Leq(key(x), key(s[0])) {
        InsertMap(f, x, s[1..], key, key');
        MapCons(f, s[0], Insert(x, s[1..], key));
      } else {
        MapCons(f, x, s);
      }
    }
  }

  /** Sorting commutes with any change of elements that leaves their keys alone. */
  lemma {:induction false} SortMap<T, U>(f: T -> U, s: seq<T>, key: T -> string, key': U -> string)
    requires forall y | y in s :: key'(f(y)) == key(y)
    ensures Sort(Map(f, s), key') == Map(f, Sort(s, key))
  {
    if s != [] {
      assert s == [s[0]] + s[1..];
      MapCons(f, s[0], s[1..]);
      SortMap(f, s[1..], key, key');
      SortIsStableSort(s[1..], key);
      forall y | y in Sort(s[1..], key) ensures y in s {
        assert y in multiset(Sort(s[1..], key));
      }
      InsertMap(f, s[0], Sort(s[1..], key), key, key');
    }
  }
}
