/** The exact one-sided McNemar tail over paired conditions, with exact rationals. */
module McNemar {

  type Variant = string

  type Condition = string

  datatype Row = Row(variant: Variant, condition: Condition, success: bool)

  type Outcomes = map<(Variant, Condition), bool>

  /** `by_key`: a later row for the same pair replaces an earlier one. */
  function ByKey(rows: seq<Row>): Outcomes {
    if rows == [] then map[] else
      var last := rows[|rows| - 1];
      ByKey(rows[..|rows| - 1])[(last.variant, last.condition) := last.success]
  }

  /** The pairs of the file, each with the outcome of its last row. */
  lemma {:induction false} ByKeyIs(rows: seq<Row>, v: Variant, c: Condition)
    ensures (v, c) in ByKey(rows) <==> exists i :: 0 <= i < |rows| && (rows[i].variant, rows[i].condition) == (v, c)
    ensures forall i | 0 <= i < |rows| && (rows[i].variant, rows[i].condition) == (v, c)
        && (forall j | i < j < |rows| :: (rows[j].variant, rows[j].condition) != (v, c)) ::
      ByKey(rows)[(v, c)] == rows[i].success
  {
    if rows != [] {
      var n := |rows| - 1;
      var init, last := rows[..n], rows[n];
      ByKeyIs(init, v, c);
      if (last.variant, last.condition) != (v, c) {
        if i :| 0 <= i < |rows| && (rows[i].variant, rows[i].condition) == (v, c) {
          assert init[i] == rows[i];
        }
        forall i | 0 <= i < |rows| && (rows[i].variant, rows[i].condition) == (v, c)
            && (forall j | i < j < |rows| :: (rows[j].variant, rows[j].condition) != (v, c))
          ensures ByKey(rows)[(v, c)] == rows[i].success
        {
          assert init[i] == rows[i];
          assert forall j | i < j < n :: init[j] == rows[j];
        }
      }
    }
  }

  function Paired(o: Outcomes, left: Condition, right: Condition): set<Variant> {
    set key | key in o && key.1 == left && (key.0, right) in o :: key.0
  }

  function Succeeding(o: Outcomes, left: Condition, right: Condition, which: Condition): set<Variant> {
    set v | v in Paired(o, left, right) && (v, which) in o && o[(v, which)]
  }

  function Wins(o: Outcomes, left: Condition, right: Condition): nat {
    |set v | v in Paired(o, left, right) && (v, left) in o && (v, right) in o && o[(v, left)] && !o[(v, right)]|
  }

  function Losses(o: Outcomes, left: Condition, right: Condition): nat {
    |set v | v in Paired(o, left, right) && (v, left) in o && (v, right) in o && !o[(v, left)] && o[(v, right)]|
  }

  /** The discordant pairs account for the whole difference between the arms. */
  lemma {:induction false} DiscordantIsDifference(o: Outcomes, left: Condition, right: Condition)
    ensures Wins(o, left, right) - Losses(o, left, right)
      == |Succeeding(o, left, right, left)| - |Succeeding(o, left, right, right)|
  {
    var l, r := Succeeding(o, left, right, left), Succeeding(o, left, right, right);
    Difference(l, r);
    assert (set v | v in Paired(o, left, right) && (v, left) in o && (v, right) in o && o[(v, left)] && !o[(v, right)])
      == l - r;
    assert (set v | v in Paired(o, left, right) && (v, left) in o && (v, right) in o && !o[(v, left)] && o[(v, right)])
      == r - l;
  }

  lemma {:induction false} Difference(l: set<Variant>, r: set<Variant>)
    ensures |l - r| - |r - l| == |l| - |r|
  {
    assert l == (l - r) + l * r && r == (r - l) + l * r;
  }

  /** The variants whose two outcomes differ. */
  function Differing(o: Outcomes, left: Condition, right: Condition): set<Variant> {
    set key | key in o && key.1 == left && (key.0, right) in o && o[key] != o[(key.0, right)] :: key.0
  }

  lemma {:induction false} DiscordantCount(o: Outcomes, left: Condition, right: Condition)
    ensures Wins(o, left, right) + Losses(o, left, right) == |Differing(o, left, right)|
  {
    var wins :=
      set v | v in Paired(o, left, right) && (v, left) in o && (v, right) in o && o[(v, left)] && !o[(v, right)];
    var losses :=
      set v | v in Paired(o, left, right) && (v, left) in o && (v, right) in o && !o[(v, left)] && o[(v, right)];
    forall v | v in wins + losses ensures v in Differing(o, left, right) {
      assert (v, left) in o;
    }
    assert wins + losses == Differing(o, left, right);
    assert wins !! losses;
  }

  /** Swapping the arms swaps wins and losses. */
  lemma {:induction false} SwapArms(o: Outcomes, left: Condition, right: Condition)
    ensures Wins(o, right, left) == Losses(o, left, right)
  {
    forall v ensures v in Paired(o, right, left) <==> v in Paired(o, left, right) {
      if v in Paired(o, right, left) {
        assert (v, left) in o;
      }
      if v in Paired(o, left, right) {
        assert (v, right) in o;
      }
    }
    assert (set v | v in Paired(o, right, left) && (v, right) in o && (v, left) in o && o[(v, right)] && !o[(v, left)])
      == (set v | v in Paired(o, left, right) && (v, left) in o && (v, right) in o && !o[(v, left)] && o[(v, right)]);
  }

  // ----- The tail -----

  function Choose(n: nat, k: nat): nat {
    if k == 0 then 1 else if n == 0 then 0 else Choose(n - 1, k - 1) + Choose(n - 1, k)
  }

  function Power(n: nat): (r: nat)
    ensures 0 < r
  {
    if n == 0 then 1 else 2 * Power(n - 1)
  }

  /** The ways to have at least `w` of `n`. */
  function Tail(n: nat, w: nat): nat
    decreases n + 1 - w
  {
    if w > n then 0 else Choose(n, w) + Tail(n, w + 1)
  }

  lemma {:induction false} ChooseBounds(n: nat, k: nat)
    ensures Choose(n, k) > 0 <==> k <= n
    ensures Choose(n, n) == 1
  {
    if n > 0 && k > 0 {
      ChooseBounds(n - 1, k - 1);
      ChooseBounds(n - 1, k);
    }
    if n > 0 {
      ChooseBounds(n - 1, n);
    }
  }

  lemma {:induction false} ChooseSymmetric(n: nat, k: nat)
    requires k <= n
    ensures Choose(n, n - k) == Choose(n, k)
  {
    ChooseBounds(n, n);
    if 0 < k < n {
      ChooseSymmetric(n - 1, k - 1);
      ChooseSymmetric(n - 1, k);
    }
  }

  lemma {:induction false} TailPascal(n: nat, w: nat)
    requires 0 < w
    ensures Tail(n + 1, w) == Tail(n, w - 1) + Tail(n, w)
    decreases n + 2 - w
  {
    ChooseBounds(n, w);
    if w <= n + 1 {
      TailPascal(n, w + 1);
    }
  }

  lemma {:induction false} WholeTail(n: nat)
    ensures Tail(n, 0) == Power(n)
  {
    if n > 0 {
      WholeTail(n - 1);
      TailPascal(n - 1, 1);
    }
  }

  lemma {:induction false} TailMirror(n: nat, w: nat)
    requires w <= n
    ensures Tail(n, n - w) + Tail(n, w + 1) == Power(n)
  {
    ChooseBounds(n, n);
    WholeTail(n);
    if w > 0 {
      TailMirror(n, w - 1);
      ChooseSymmetric(n, w);
    }
  }

  lemma {:induction false} TailBounds(n: nat, w: nat)
    requires w <= n
    ensures 0 < Tail(n, w) <= Power(n)
    ensures Tail(n, w + 1) < Tail(n, w)
    ensures Tail(n, w) == Power(n) <==> w == 0
  {
    ChooseBounds(n, w);
    TailMirror(n, w);
    WholeTail(n);
    if w > 0 {
      TailBounds(n, w - 1);
    }
  }

  // ----- What the tail counts -----

  /** The subsets of `u` with `k` elements. */
  ghost function OfSize(u: set<nat>, k: nat): set<set<nat>> {
    set s | s <= u && |s| == k
  }

  /** The subsets of `u` with at least `w` elements. */
  ghost function OfSizeAtLeast(u: set<nat>, w: nat): set<set<nat>> {
    set s | s <= u && |s| >= w
  }

  ghost function Extended(family: set<set<nat>>, x: nat): set<set<nat>> {
    set s | s in family :: s + {x}
  }

  lemma {:induction false} ExtendedSize(family: set<set<nat>>, x: nat)
    requires forall s | s in family :: x !in s
    ensures |Extended(family, x)| == |family|
  {
    if family != {} {
      var s :| s in family;
      var rest := family - {s};
      ExtendedSize(rest, x);
      forall t | t in rest ensures t + {x} != s + {x} {
        assert (t + {x}) - {x} == t && (s + {x}) - {x} == s;
      }
      assert Extended(family, x) == Extended(rest, x) + {s + {x}};
    }
  }

  lemma {:induction false} SplitOfSize(u: set<nat>, x: nat, k: nat)
    requires x in u && 0 < k
    ensures OfSize(u, k) == OfSize(u - {x}, k) + Extended(OfSize(u - {x}, k - 1), x)
  {
    forall s | s in OfSize(u, k) && x in s ensures s in Extended(OfSize(u - {x}, k - 1), x) {
      assert s - {x} in OfSize(u - {x}, k - 1) && (s - {x}) + {x} == s;
    }
    forall s | s in OfSize(u, k) && x !in s ensures s in OfSize(u - {x}, k) {}
    forall s | s in OfSize(u - {x}, k - 1) ensures s + {x} in OfSize(u, k) {}
  }

  lemma {:induction false} CountOfSize(u: set<nat>, x: nat, k: nat)
    requires x in u && 0 < k
    ensures |OfSize(u, k)| == |OfSize(u - {x}, k)| + |OfSize(u - {x}, k - 1)|
  {
    var without, with := OfSize(u - {x}, k), Extended(OfSize(u - {x}, k - 1), x);
    SplitOfSize(u, x, k);
    ExtendedSize(OfSize(u - {x}, k - 1), x);
    forall s | s in with ensures x in s {}
    assert without !! with;
  }

  lemma {:induction false} NoneOfSize(u: set<nat>, k: nat)
    ensures |OfSize(u, 0)| == 1
    ensures u == {} && 0 < k ==> |OfSize(u, k)| == 0
  {
    var empty: set<nat> := {};
    assert OfSize(u, 0) == {empty};
    if u == {} && 0 < k {
      assert OfSize(u, k) == {};
    }
  }

  /** There are C(n, k) ways to choose k of n. */
  lemma {:induction false} ChooseCounts(u: set<nat>, k: nat)
    ensures |OfSize(u, k)| == Choose(|u|, k)
    decreases |u|
  {
    NoneOfSize(u, k);
    if k > 0 && u != {} {
      var x :| x in u;
      CountOfSize(u, x, k);
      ChooseCounts(u - {x}, k);
      ChooseCounts(u - {x}, k - 1);
    }
  }

  lemma {:induction false} SubsetSize(s: set<nat>, u: set<nat>)
    requires s <= u
    ensures |s| <= |u|
  {
    assert u == s + (u - s);
  }

  /** The tail counts the outcomes of the discordant pairs with at least `w` wins. */
  lemma {:induction false} TailCounts(u: set<nat>, w: nat)
    ensures |OfSizeAtLeast(u, w)| == Tail(|u|, w)
    decreases |u| + 1 - w
  {
    if w > |u| {
      forall s | s <= u ensures |s| < w {
        SubsetSize(s, u);
      }
      assert OfSizeAtLeast(u, w) == {};
    } else {
      ChooseCounts(u, w);
      TailCounts(u, w + 1);
      assert OfSizeAtLeast(u, w) == OfSize(u, w) + OfSizeAtLeast(u, w + 1);
    }
  }

  function OneSidedP(wins: nat, losses: nat): real {
    var discordant := wins + losses;
    if discordant == 0 then 1.0 else Ratio(Tail(discordant, wins), Power(discordant))
  }

  function Ratio(a: nat, d: nat): (r: real)
    requires 0 < d
    ensures r * d as real == a as real
  {
    a as real / d as real
  }

  lemma Distribute(x: real, y: real, e: real)
    ensures (x + y) * e == x * e + y * e
  {}

  lemma PositiveProduct(x: real, e: real)
    requires 0.0 < x && 0.0 < e
    ensures 0.0 < x * e
  {}

  lemma {:induction false} ProductLess(x: real, y: real, e: real)
    requires 0.0 < e && x < y
    ensures x * e < y * e
  {
    PositiveProduct(y - x, e);
    Distribute(y - x, x, e);
  }

  lemma {:induction false} RatioLess(a: nat, b: nat, d: nat)
    requires 0 < d
    ensures a < b <==> Ratio(a, d) < Ratio(b, d)
  {
    if Ratio(a, d) < Ratio(b, d) {
      ProductLess(Ratio(a, d), Ratio(b, d), d as real);
    } else if Ratio(b, d) < Ratio(a, d) {
      ProductLess(Ratio(b, d), Ratio(a, d), d as real);
    }
  }

  lemma {:induction false} Cancel(x: real, y: real, e: real)
    requires 0.0 < e && x * e == y * e
    ensures x == y
  {
    if x < y {
      ProductLess(x, y, e);
    } else if y < x {
      ProductLess(y, x, e);
    }
  }

  lemma {:induction false} CancelSum(x: real, y: real, z: real, e: real, a: real, b: real, c: real)
    requires 0.0 < e && x * e == a && y * e == b && z * e == c && a + b == e + c
    ensures x + y == 1.0 + z
  {
    Distribute(x, y, e);
    Distribute(1.0, z, e);
    Cancel(x + y, 1.0 + z, e);
  }

  lemma {:induction false} RatioAdd(a: nat, b: nat, c: nat, d: nat)
    requires 0 < d && a + b == d + c
    ensures Ratio(a, d) + Ratio(b, d) == 1.0 + Ratio(c, d)
  {
    CancelSum(Ratio(a, d), Ratio(b, d), Ratio(c, d), d as real, a as real, b as real, c as real);
  }

  lemma RatioWhole(d: nat)
    requires 0 < d
    ensures Ratio(d, d) == 1.0 && Ratio(0, d) == 0.0
  {}

  lemma {:induction false} OneSidedPIs(wins: nat, losses: nat)
    ensures OneSidedP(wins, losses) == Ratio(Tail(wins + losses, wins), Power(wins + losses))
  {
    WholeTail(wins + losses);
    RatioWhole(Power(wins + losses));
  }

  /** The probability is the share of all win and loss patterns of the discordant pairs that have at
      least as many wins. */
  lemma {:induction false} PIsShare(wins: nat, losses: nat, pairs: set<nat>)
    requires |pairs| == wins + losses
    ensures OneSidedP(wins, losses) * |OfSizeAtLeast(pairs, 0)| as real == |OfSizeAtLeast(pairs, wins)| as real
  {
    OneSidedPIs(wins, losses);
    TailCounts(pairs, wins);
    TailCounts(pairs, 0);
    WholeTail(wins + losses);
  }

  /** A probability in (0, 1], certain exactly without wins. */
  lemma {:induction false} PInRange(wins: nat, losses: nat)
    ensures 0.0 < OneSidedP(wins, losses) <= 1.0
    ensures OneSidedP(wins, losses) == 1.0 <==> wins == 0
  {
    var n := wins + losses;
    OneSidedPIs(wins, losses);
    TailBounds(n, wins);
    RatioWhole(Power(n));
    RatioLess(0, Tail(n, wins), Power(n));
    RatioLess(Power(n), Tail(n, wins), Power(n));
    RatioLess(Tail(n, wins), Power(n), Power(n));
  }

  /** For a fixed number of discordant pairs, more wins is strictly stronger evidence. */
  lemma {:induction false} PFallsWithWins(wins: nat, losses: nat, more: nat)
    requires 0 < more <= losses
    ensures OneSidedP(wins + more, losses - more) < OneSidedP(wins, losses)
  {
    var n := wins + losses;
    OneSidedPIs(wins, losses);
    OneSidedPIs(wins + more, losses - more);
    TailFalls(n, wins, more);
    RatioLess(Tail(n, wins + more), Tail(n, wins), Power(n));
  }

  lemma {:induction false} TailFalls(n: nat, w: nat, more: nat)
    requires 0 < more && w + more <= n
    ensures Tail(n, w + more) < Tail(n, w)
    decreases more
  {
    TailBounds(n, w);
    if more > 1 {
      TailFalls(n, w + 1, more - 1);
    }
  }

  /** Swapping the arms: the two tails overlap in exactly the observed split. */
  lemma {:induction false} SwappedP(wins: nat, losses: nat)
    ensures OneSidedP(wins, losses) + OneSidedP(losses, wins)
      == 1.0 + Ratio(Choose(wins + losses, wins), Power(wins + losses))
  {
    var n := wins + losses;
    OneSidedPIs(wins, losses);
    OneSidedPIs(losses, wins);
    TailMirror(n, wins);
    RatioAdd(Tail(n, wins), Tail(n, losses), Choose(n, wins), Power(n));
  }

  // ----- The analysis of a result file -----

  datatype Analysis = Analysis(wins: nat, losses: nat, discordant: nat, p: real)

  function Analyze(rows: seq<Row>, left: Condition, right: Condition): Analysis {
    var o := ByKey(rows);
    var wins, losses := Wins(o, left, right), Losses(o, left, right);
    Analysis(wins, losses, wins + losses, OneSidedP(wins, losses))
  }

  /** What an analysis reports of the pairs: wins and losses account for the difference in successes,
      and the probability is certain exactly without wins. */
  lemma {:induction false} AnalysisIs(rows: seq<Row>, left: Condition, right: Condition, pairs: set<nat>)
    requires |pairs| == Analyze(rows, left, right).discordant
    ensures var a, o := Analyze(rows, left, right), ByKey(rows);
      && a.wins - a.losses == |Succeeding(o, left, right, left)| - |Succeeding(o, left, right, right)|
      && a.discordant == a.wins + a.losses == |Differing(o, left, right)|
      && a.p * |OfSizeAtLeast(pairs, 0)| as real == |OfSizeAtLeast(pairs, a.wins)| as real
      && (a.p == 1.0 <==> a.wins == 0)
  {
    var a := Analyze(rows, left, right);
    DiscordantIsDifference(ByKey(rows), left, right);
    DiscordantCount(ByKey(rows), left, right);
    PIsShare(a.wins, a.losses, pairs);
    PInRange(a.wins, a.losses);
  }

  /** Exchanging the arms of one result file exchanges wins and losses, and the two probabilities
      overlap in exactly the observed split. */
  lemma {:induction false} ExchangedAnalysis(rows: seq<Row>, left: Condition, right: Condition)
    ensures var a, b := Analyze(rows, left, right), Analyze(rows, right, left);
      && b.wins == a.losses && b.losses == a.wins && b.discordant == a.discordant
      && a.p + b.p == 1.0 + Ratio(Choose(a.discordant, a.wins), Power(a.discordant))
  {
    SwapArms(ByKey(rows), left, right);
    SwapArms(ByKey(rows), right, left);
    SwappedP(Analyze(rows, left, right).wins, Analyze(rows, left, right).losses);
  }
}
