/** The listing selector of src/components/Content.tsx (`optimalListings`): a 0/1-knapsack
    cost table indexed by total quantity, a scan for the cheapest total at or above the
    quantity needed, and a backward walk that rebuilds a selection from the table. */
module Optimizer {
  import opened Types

  /** A cost-table entry: a whole number of gil, or the `Number.POSITIVE_INFINITY` sentinel. */
  datatype Cost = Fin(gil: nat) | Inf

  /** `Math.min` on table entries. */
  function Min(a: Cost, b: Cost): Cost
  {
    if a.Inf? then b else if b.Inf? then a else if a.gil <= b.gil then a else b
  }

  /** Adding a finite amount; infinity absorbs it, as in floating point. */
  function Plus(a: Cost, k: nat): Cost
  {
    if a.Inf? then Inf else Fin(a.gil + k)
  }

  /** The strict `<` of the scan: nothing is below infinity. */
  predicate Less(a: Cost, b: Cost)
  {
    a.Fin? && (b.Inf? || a.gil < b.gil)
  }

  predicate AtMost(a: Cost, b: Cost)
  {
    b.Inf? || (a.Fin? && a.gil <= b.gil)
  }

  /** What buying a whole listing costs. */
  function Price(l: Listing): nat
  {
    l.quantity * l.pricePerUnit
  }

  /** Total quantity of a sequence of listings. */
  function Units(s: seq<Listing>): nat
    decreases |s|
  {
    if |s| == 0 then 0 else s[0].quantity + Units(s[1..])
  }

  /** Total price of buying every listing of a sequence whole. */
  function Spend(s: seq<Listing>): nat
    decreases |s|
  {
    if |s| == 0 then 0 else Price(s[0]) + Spend(s[1..])
  }

  lemma {:induction false} UnitsAppend(a: seq<Listing>, b: seq<Listing>)
    ensures Units(a + b) == Units(a) + Units(b)
    decreases |a|
  {
    if |a| > 0 {
      assert (a + b)[0] == a[0];
      assert (a + b)[1..] == a[1..] + b;
      UnitsAppend(a[1..], b);
    } else {
      assert a + b == b;
    }
  }

  lemma {:induction false} SpendAppend(a: seq<Listing>, b: seq<Listing>)
    ensures Spend(a + b) == Spend(a) + Spend(b)
    decreases |a|
  {
    if |a| > 0 {
      assert (a + b)[0] == a[0];
      assert (a + b)[1..] == a[1..] + b;
      SpendAppend(a[1..], b);
    } else {
      assert a + b == b;
    }
  }

  /** Regrouping a concatenation. A proof step of `WalkBack`: called as a lemma it costs the
      solver far less there than the same fact asserted inline. */
  lemma Associative(a: seq<Listing>, b: seq<Listing>, c: seq<Listing>)
    ensures a + (b + c) == (a + b) + c
  {
  }

  // ---------------------------------------------------------------------------
  // The cost table and what it means

  /** Entry `q` of the table after the listings `ls` have been relaxed in order:
      `Best(ls, q)` is built from the table before the last listing exactly as the
      descending relaxation `dp[q] = min(dp[q], dp[q - quantity] + quantity * pricePerUnit)` builds it. */
  function Best(ls: seq<Listing>, q: nat): Cost
    decreases |ls|
  {
    if |ls| == 0 then (if q == 0 then Fin(0) else Inf)
    else
      var l := ls[|ls| - 1];
      var before := ls[..|ls| - 1];
      Min(Best(before, q), if q >= l.quantity then Plus(Best(before, q - l.quantity), Price(l)) else Inf)
  }

  /** Entry `q` after one more listing, in terms of the entries before it. */
  lemma BestStep(ls: seq<Listing>, i: nat, q: nat)
    requires i < |ls|
    ensures Best(ls[..i + 1], q) == if q >= ls[i].quantity
      then Min(Best(ls[..i], q), Plus(Best(ls[..i], q - ls[i].quantity), Price(ls[i])))
      else Best(ls[..i], q)
  {
    assert ls[..i + 1][..i] == ls[..i] && ls[..i + 1][i] == ls[i];
  }

  /** The listings that a choice mask `m` (one flag per listing) selects, last listing first. */
  function Picked(ls: seq<Listing>, m: seq<bool>): seq<Listing>
    requires |m| == |ls|
    decreases |ls|
  {
    if |ls| == 0 then []
    else
      var rest := Picked(ls[..|ls| - 1], m[..|m| - 1]);
      if m[|m| - 1] then [ls[|ls| - 1]] + rest else rest
  }

  lemma {:induction false} PickedFrom(ls: seq<Listing>, m: seq<bool>)
    requires |m| == |ls|
    ensures forall x :: x in Picked(ls, m) ==> x in ls
    ensures Units(Picked(ls, m)) <= Units(ls)
    decreases |ls|
  {
    if |ls| > 0 {
      var before := ls[..|ls| - 1];
      PickedFrom(before, m[..|m| - 1]);
      assert ls == before + [ls[|ls| - 1]];
      UnitsAppend(before, [ls[|ls| - 1]]);
    }
  }

  /** No selection of listings, each used at most once, totalling `q` units is cheaper than `Best(ls, q)`. */
  lemma {:induction false} BestIsLowerBound(ls: seq<Listing>, m: seq<bool>)
    requires |m| == |ls|
    ensures AtMost(Best(ls, Units(Picked(ls, m))), Fin(Spend(Picked(ls, m))))
    decreases |ls|
  {
    if |ls| > 0 {
      var before, mb := ls[..|ls| - 1], m[..|m| - 1];
      BestIsLowerBound(before, mb);
      var rest := Picked(before, mb);
      if m[|m| - 1] {
        var l := ls[|ls| - 1];
        assert ([l] + rest)[1..] == rest;
        assert Units(Picked(ls, m)) == l.quantity + Units(rest);
      }
    }
  }

  /** The selection the intended reconstruction makes: walking the listings from the last
      one down, take a listing exactly when it changed the table entry of the remaining total. */
  function Rebuild(ls: seq<Listing>, q: nat): (m: seq<bool>)
    requires Best(ls, q).Fin?
    ensures |m| == |ls|
    ensures Units(Picked(ls, m)) == q
    ensures Best(ls, q) == Fin(Spend(Picked(ls, m)))
    decreases |ls|
  {
    if |ls| == 0 then []
    else
      var l, before := ls[|ls| - 1], ls[..|ls| - 1];
      if Best(ls, q) == Best(before, q) then
        var mb := Rebuild(before, q);
        assert (mb + [false])[..|ls| - 1] == mb;
        mb + [false]
      else
        var mb := Rebuild(before, q - l.quantity);
        assert (mb + [true])[..|ls| - 1] == mb;
        var rest := Picked(before, mb);
        assert ([l] + rest)[1..] == rest;
        mb + [true]
  }

  /** Taking every listing reaches the total quantity, so that entry is finite. */
  lemma {:induction false} BestOfAll(ls: seq<Listing>)
    ensures Best(ls, Units(ls)).Fin?
    decreases |ls|
  {
    if |ls| > 0 {
      var before := ls[..|ls| - 1];
      BestOfAll(before);
      assert ls == before + [ls[|ls| - 1]];
      UnitsAppend(before, [ls[|ls| - 1]]);
    }
  }

  /** Buying nothing costs nothing, whatever has been relaxed. */
  lemma {:induction false} BestOfNothing(ls: seq<Listing>)
    ensures Best(ls, 0) == Fin(0)
    decreases |ls|
  {
    if |ls| > 0 {
      BestOfNothing(ls[..|ls| - 1]);
    }
  }

  // ---------------------------------------------------------------------------
  // The scan for the cheapest feasible total

  /** `t` is what the scan over `lo..hi` leaves in `minQ`: -1 when every entry is infinite,
      otherwise the lowest index of the least entry. */
  ghost predicate IsCheapest(ls: seq<Listing>, lo: nat, hi: int, t: int)
  {
    if forall q :: lo <= q <= hi ==> Best(ls, q).Inf? then t == -1
    else
      lo <= t <= hi && Best(ls, t).Fin?
      && (forall q :: lo <= q <= hi ==> AtMost(Best(ls, t), Best(ls, q)))
      && (forall q :: lo <= q < t ==> Less(Best(ls, t), Best(ls, q)))
  }

  function Cheapest(ls: seq<Listing>, lo: nat, hi: int): (t: int)
    ensures IsCheapest(ls, lo, hi, t)
    decreases hi - lo + 1
  {
    if lo > hi then -1
    else
      var t := Cheapest(ls, lo + 1, hi);
      if Best(ls, lo).Fin? && (t == -1 || AtMost(Best(ls, lo), Best(ls, t))) then lo else t
  }

  lemma CheapestUnique(ls: seq<Listing>, lo: nat, hi: int, t: int)
    requires IsCheapest(ls, lo, hi, t)
    ensures t == Cheapest(ls, lo, hi)
  {
  }

  /** The first index the scan can read: `dp[q]` for negative `q` is `undefined`, never below anything. */
  function Lo(need: int): nat
  {
    if need < 0 then 0 else need
  }

  /** The total quantity the selector aims at, or -1 when no total in range is reachable. */
  function Target(ls: seq<Listing>, need: int): int
  {
    Cheapest(ls, Lo(need), Units(ls))
  }

  lemma TargetInRange(ls: seq<Listing>, need: int)
    ensures Target(ls, need) == -1 <==> need > Units(ls)
    ensures Target(ls, need) != -1 ==> Lo(need) <= Target(ls, need) <= Units(ls) && Best(ls, Target(ls, need)).Fin?
  {
    BestOfAll(ls);
    if need <= Units(ls) {
      assert !Best(ls, Units(ls)).Inf?;
    }
  }

  // ---------------------------------------------------------------------------
  // The walk as the source writes it

  /** The inner `while` for one listing `l`: push it and step down while the table says that
      `currentQ` is `currentQ - quantity` plus this listing. Returns the pushes and the new `currentQ`. */
  function Drain(ls: seq<Listing>, l: Listing, cur: nat): (r: (seq<Listing>, nat))
    ensures r.1 <= cur
    decreases cur
  {
    if cur >= l.quantity && Best(ls, cur) == Plus(Best(ls, cur - l.quantity), Price(l)) then
      var d := Drain(ls, l, cur - l.quantity);
      ([l] + d.0, d.1)
    else ([], cur)
  }

  /** The outer `for` from index `i - 1` down to 0, starting at `currentQ == cur`. */
  function Walk(ls: seq<Listing>, i: nat, cur: nat): (r: (seq<Listing>, nat))
    requires i <= |ls|
    ensures r.1 <= cur
    decreases i
  {
    if i == 0 then ([], cur)
    else
      var d := Drain(ls, ls[i - 1], cur);
      var w := Walk(ls, i - 1, d.1);
      (d.0 + w.0, w.1)
  }

  /** The listings `optimalListings(ls, need)` returns. */
  function Selection(ls: seq<Listing>, need: int): seq<Listing>
  {
    var t := Target(ls, need);
    if t == -1 then [] else Walk(ls, |ls|, t).0
  }

  lemma {:induction false} DrainInvariant(ls: seq<Listing>, l: Listing, cur: nat)
    requires Best(ls, cur).Fin?
    ensures var (pushed, left) := Drain(ls, l, cur);
      (forall x :: x in pushed ==> x == l)
      && Units(pushed) + left == cur
      && Best(ls, left).Fin?
      && Best(ls, cur) == Plus(Best(ls, left), Spend(pushed))
    decreases cur
  {
    if cur >= l.quantity && Best(ls, cur) == Plus(Best(ls, cur - l.quantity), Price(l)) {
      var d := Drain(ls, l, cur - l.quantity);
      DrainInvariant(ls, l, cur - l.quantity);
      assert ([l] + d.0)[1..] == d.0;
    }
  }

  /** The invariants of the reconstruction walk: every pushed element is a listing, the
      remaining total stays between 0 and the start, the pushed quantity is what the total
      went down by, and the pushed cost is what the table entry went down by. */
  lemma {:induction false} WalkInvariant(ls: seq<Listing>, i: nat, cur: nat)
    requires i <= |ls| && Best(ls, cur).Fin?
    ensures forall x :: x in Walk(ls, i, cur).0 ==> x in ls[..i]
    ensures 0 <= Walk(ls, i, cur).1 <= cur
    ensures Units(Walk(ls, i, cur).0) + Walk(ls, i, cur).1 == cur
    ensures Best(ls, Walk(ls, i, cur).1).Fin?
    ensures Best(ls, cur) == Plus(Best(ls, Walk(ls, i, cur).1), Spend(Walk(ls, i, cur).0))
    decreases i
  {
    if i > 0 {
      var d := Drain(ls, ls[i - 1], cur);
      DrainInvariant(ls, ls[i - 1], cur);
      WalkInvariant(ls, i - 1, d.1);
      WalkStep(ls, i, cur);
    }
  }

  /** Every element of `xs` is one of `ys`. */
  predicate AllIn(xs: seq<Listing>, ys: seq<Listing>)
  {
    forall x :: x in xs ==> x in ys
  }

  /** One step of the walk: its pushed listings and totals add up. */
  lemma WalkStep(ls: seq<Listing>, i: nat, cur: nat)
    requires 0 < i <= |ls|
    requires AllIn(Drain(ls, ls[i - 1], cur).0, [ls[i - 1]])
    requires AllIn(Walk(ls, i - 1, Drain(ls, ls[i - 1], cur).1).0, ls[..i - 1])
    ensures Walk(ls, i, cur).0 == Drain(ls, ls[i - 1], cur).0 + Walk(ls, i - 1, Drain(ls, ls[i - 1], cur).1).0
    ensures Walk(ls, i, cur).1 == Walk(ls, i - 1, Drain(ls, ls[i - 1], cur).1).1
    ensures Units(Walk(ls, i, cur).0)
      == Units(Drain(ls, ls[i - 1], cur).0) + Units(Walk(ls, i - 1, Drain(ls, ls[i - 1], cur).1).0)
    ensures Spend(Walk(ls, i, cur).0)
      == Spend(Drain(ls, ls[i - 1], cur).0) + Spend(Walk(ls, i - 1, Drain(ls, ls[i - 1], cur).1).0)
    ensures forall x :: x in Walk(ls, i, cur).0 ==> x in ls[..i]
  {
    var d := Drain(ls, ls[i - 1], cur);
    var w := Walk(ls, i - 1, d.1);
    UnitsAppend(d.0, w.0);
    SpendAppend(d.0, w.0);
    assert ls[..i - 1] == ls[..i][..i - 1];
    assert ls[i - 1] == ls[..i][i - 1];
  }

  /** What the source's selection is guaranteed to be: nothing when the need exceeds the
      listed quantity; otherwise listings of the input, no more units than the target and
      exactly the target's table cost less the entry the walk stops at. */
  lemma SelectionProperties(ls: seq<Listing>, need: int)
    ensures need > Units(ls) ==> Selection(ls, need) == []
    ensures forall x :: x in Selection(ls, need) ==> x in ls
    ensures var t := Target(ls, need); t != -1 ==>
      var (pushed, left) := Walk(ls, |ls|, t);
      Selection(ls, need) == pushed
      && Units(pushed) + left == t
      && Best(ls, t) == Plus(Best(ls, left), Spend(pushed))
  {
    TargetInRange(ls, need);
    var t := Target(ls, need);
    if t != -1 {
      WalkInvariant(ls, |ls|, t);
      assert ls[..|ls|] == ls;
    }
  }

  /** The source never pays more than the cheapest feasible choice of whole listings
      (but see `WalkStopsShort`: it may not buy enough). */
  lemma SelectionNeverOverpays(ls: seq<Listing>, need: int, m: seq<bool>)
    requires |m| == |ls| && Units(Picked(ls, m)) >= need
    ensures Spend(Selection(ls, need)) <= Spend(Picked(ls, m))
  {
    var u := Units(Picked(ls, m));
    PickedFrom(ls, m);
    BestIsLowerBound(ls, m);
    TargetInRange(ls, need);
    var t := Target(ls, need);
    assert Lo(need) <= u <= Units(ls);
    WalkInvariant(ls, |ls|, t);
    assert AtMost(Best(ls, t), Best(ls, u));
  }

  /** Two one-unit listings on one world, the first at 3 gil and the second at 1 gil, and a
      need of 2: the walk takes the 3-gil listing, then finds no listing that explains the
      remaining single unit, and returns one unit where two were needed. */
  lemma WalkStopsShort()
    ensures var ls := [Listing(3, 1, 73), Listing(1, 1, 73)];
      Units(ls) >= 2 && Units(Selection(ls, 2)) == 1
  {
    var a, b := Listing(3, 1, 73), Listing(1, 1, 73);
    var ls := [a, b];
    assert ls[1..] == [b] && [b][1..] == [];
    assert Units([b]) == 1;
    assert Units(ls) == 2;
    ShortTarget();
    ShortWalk();
    assert Selection(ls, 2) == [a];
    assert Units([a]) == 1;
  }

  /** The table of the first listing alone, and of both. */
  lemma ShortTable()
    ensures var a, b := Listing(3, 1, 73), Listing(1, 1, 73);
      Best([a], 0) == Fin(0) && Best([a], 1) == Fin(3) && Best([a], 2) == Inf
      && Best([a, b], 0) == Fin(0) && Best([a, b], 1) == Fin(1) && Best([a, b], 2) == Fin(4)
  {
    var a, b := Listing(3, 1, 73), Listing(1, 1, 73);
    assert [a, b][..1] == [a] && [a][..0] == [];
    assert Price(a) == 3 && Price(b) == 1;
    assert Best([], 0) == Fin(0) && Best([], 1) == Inf && Best([], 2) == Inf;
    assert Best([a], 0) == Fin(0) && Best([a], 1) == Fin(3) && Best([a], 2) == Inf;
  }

  /** The scan settles on total 2: nothing above it is listed. */
  lemma ShortTarget()
    ensures Target([Listing(3, 1, 73), Listing(1, 1, 73)], 2) == 2
  {
    var a, b := Listing(3, 1, 73), Listing(1, 1, 73);
    var ls := [a, b];
    assert ls[1..] == [b] && [b][1..] == [];
    assert Units([b]) == 1;
    assert Units(ls) == 2;
    ShortTable();
    assert Cheapest(ls, 3, 2) == -1;
  }

  /** The walk from total 2 over the final table (entries 0, 1, 4): the 1-gil listing does not
      explain entry 4 (1 + 1 is 2), the 3-gil one does (1 + 3), and at total 1 it no longer does
      (0 + 3 is not 1), so one unit is left unbought. */
  lemma ShortWalk()
    ensures Walk([Listing(3, 1, 73), Listing(1, 1, 73)], 2, 2) == ([Listing(3, 1, 73)], 1)
  {
    var a, b := Listing(3, 1, 73), Listing(1, 1, 73);
    var ls := [a, b];
    ShortTable();
    assert Price(a) == 3 && Price(b) == 1;
    assert Drain(ls, b, 2) == ([], 2);
    assert Drain(ls, a, 1) == ([], 1);
    assert Best(ls, 2) == Plus(Best(ls, 2 - a.quantity), Price(a));
    assert [a] + Drain(ls, a, 1).0 == [a];
    assert Drain(ls, a, 2) == ([a], 1);
    assert Walk(ls, 0, 1) == ([], 1);
    assert Walk(ls, 1, 2) == ([a], 1);
    assert Drain(ls, b, 2).0 + [a] == [a];
  }

  /** Four listings on one world, at (price per unit, quantity) (1, 1), (2, 2), (2, 2) and
      (2, 3), and a need of 7, which the eight listed units cover: the scan settles on total 7,
      whose only make-up is the last three listings at 14 gil, but no listing explains entry 7
      of the final table (entries 4, 5 and 6 come from cheaper make-ups that use the very
      listing being tested), so the walk pushes nothing and the item is left unbought. */
  lemma WalkFindsNothing()
    ensures var ls := [Listing(1, 1, 73), Listing(2, 2, 73), Listing(2, 2, 73), Listing(2, 3, 73)];
      Units(ls) == 8 && Selection(ls, 7) == []
  {
    NothingTarget();
    NothingWalk();
  }

  /** The scan over totals 7 and 8 settles on 7 (14 gil against 15). */
  lemma NothingTarget()
    ensures var ls := [Listing(1, 1, 73), Listing(2, 2, 73), Listing(2, 2, 73), Listing(2, 3, 73)];
      Units(ls) == 8 && Target(ls, 7) == 7
  {
    var a, b, c, d := Listing(1, 1, 73), Listing(2, 2, 73), Listing(2, 2, 73), Listing(2, 3, 73);
    var ls := [a, b, c, d];
    assert ls[1..] == [b, c, d] && [b, c, d][1..] == [c, d] && [c, d][1..] == [d] && [d][1..] == [];
    assert Units([d]) == 3 && Units([c, d]) == 5 && Units([b, c, d]) == 7;
    assert Units(ls) == 8;
    NothingTable();
    assert Cheapest(ls, 8, 8) == 8;
    assert Cheapest(ls, 7, 8) == 7;
  }

  /** From total 7 no listing is explained: 14 is neither 7 + 6, 9 + 4 nor 11 + 1. */
  lemma NothingWalk()
    ensures var ls := [Listing(1, 1, 73), Listing(2, 2, 73), Listing(2, 2, 73), Listing(2, 3, 73)];
      Walk(ls, 4, 7) == ([], 7)
  {
    var a, b, c, d := Listing(1, 1, 73), Listing(2, 2, 73), Listing(2, 2, 73), Listing(2, 3, 73);
    var ls := [a, b, c, d];
    NothingTable();
    assert Price(a) == 1 && Price(b) == 4 && Price(c) == 4 && Price(d) == 6;
    assert Drain(ls, d, 7) == ([], 7);
    assert Drain(ls, c, 7) == ([], 7);
    assert Drain(ls, b, 7) == ([], 7);
    assert Drain(ls, a, 7) == ([], 7);
    var none: seq<Listing> := [];
    assert none + none == none;
    assert Walk(ls, 0, 7) == ([], 7);
    assert Walk(ls, 1, 7) == ([], 7);
    assert Walk(ls, 2, 7) == ([], 7);
    assert Walk(ls, 3, 7) == ([], 7);
  }

  /** The final table of those four listings, entries 4 to 8 (14 at 7, 15 at 8). */
  lemma NothingTable()
    ensures var ls := [Listing(1, 1, 73), Listing(2, 2, 73), Listing(2, 2, 73), Listing(2, 3, 73)];
      Best(ls, 4) == Fin(7) && Best(ls, 5) == Fin(9) && Best(ls, 6) == Fin(11)
      && Best(ls, 7) == Fin(14) && Best(ls, 8) == Fin(15)
  {
    var a, b, c, d := Listing(1, 1, 73), Listing(2, 2, 73), Listing(2, 2, 73), Listing(2, 3, 73);
    var ls := [a, b, c, d];
    NothingPrefix();
    assert ls[..3] == [a, b, c];
    assert Price(d) == 6;
  }

  /** The table after the first three of those listings: 0, 1, 4, 5, 8, 9 and then infinite. */
  lemma NothingPrefix()
    ensures var a, b, c := Listing(1, 1, 73), Listing(2, 2, 73), Listing(2, 2, 73);
      Best([a, b, c], 1) == Fin(1) && Best([a, b, c], 2) == Fin(4) && Best([a, b, c], 3) == Fin(5)
      && Best([a, b, c], 4) == Fin(8) && Best([a, b, c], 5) == Fin(9)
      && Best([a, b, c], 6) == Inf && Best([a, b, c], 7) == Inf && Best([a, b, c], 8) == Inf
  {
    var a, b, c := Listing(1, 1, 73), Listing(2, 2, 73), Listing(2, 2, 73);
    NothingPair();
    assert [a, b, c][..2] == [a, b];
    assert Price(c) == 4;
  }

  /** The table after the first two: 0, 1, 4, 5 and then infinite. */
  lemma NothingPair()
    ensures var a, b := Listing(1, 1, 73), Listing(2, 2, 73);
      Best([a, b], 0) == Fin(0) && Best([a, b], 1) == Fin(1) && Best([a, b], 2) == Fin(4)
      && Best([a, b], 3) == Fin(5) && Best([a, b], 4) == Inf && Best([a, b], 5) == Inf
      && Best([a, b], 6) == Inf && Best([a, b], 7) == Inf && Best([a, b], 8) == Inf
  {
    var a, b := Listing(1, 1, 73), Listing(2, 2, 73);
    assert [a, b][..1] == [a] && [a][..0] == [];
    assert Price(a) == 1 && Price(b) == 4;
    assert Best([], 0) == Fin(0) && Best([], 1) == Inf && Best([], 2) == Inf && Best([], 3) == Inf
      && Best([], 4) == Inf && Best([], 5) == Inf && Best([], 6) == Inf && Best([], 7) == Inf
      && Best([], 8) == Inf;
    assert Best([a], 0) == Fin(0) && Best([a], 1) == Fin(1) && Best([a], 2) == Inf
      && Best([a], 3) == Inf && Best([a], 4) == Inf && Best([a], 5) == Inf && Best([a], 6) == Inf
      && Best([a], 7) == Inf && Best([a], 8) == Inf;
  }

  /** Two one-unit listings at 1 gil on different worlds, and a need of 2: entries 1 and 2 of
      the final table are both explained by the second listing, so the walk pushes it twice
      and never reaches the first; the result buys one listing twice and the other not at all. */
  lemma WalkRepeatsListing()
    ensures var a, b := Listing(1, 1, 73), Listing(1, 1, 74);
      Selection([a, b], 2) == [b, b]
  {
    RepeatsTable();
    RepeatsWalk();
  }

  /** The final table of those two listings is 0, 1, 2, and the scan settles on total 2. */
  lemma RepeatsTable()
    ensures var ls := [Listing(1, 1, 73), Listing(1, 1, 74)];
      Best(ls, 0) == Fin(0) && Best(ls, 1) == Fin(1) && Best(ls, 2) == Fin(2) && Target(ls, 2) == 2
  {
    var a, b := Listing(1, 1, 73), Listing(1, 1, 74);
    var ls := [a, b];
    assert ls[1..] == [b] && [b][1..] == [];
    assert Units([b]) == 1;
    assert Units(ls) == 2;
    assert ls[..1] == [a] && [a][..0] == [];
    assert Price(a) == 1 && Price(b) == 1;
    assert Best([a], 0) == Fin(0) && Best([a], 1) == Fin(1) && Best([a], 2) == Inf;
  }

  /** From total 2 the second listing explains entry 2 (1 + 1) and then entry 1 (0 + 1). */
  lemma RepeatsWalk()
    ensures var a, b := Listing(1, 1, 73), Listing(1, 1, 74);
      Walk([a, b], 2, 2) == ([b, b], 0)
  {
    var a, b := Listing(1, 1, 73), Listing(1, 1, 74);
    var ls := [a, b];
    RepeatsTable();
    assert Price(b) == 1;
    var none: seq<Listing> := [];
    assert [b] + none == [b] && [b] + [b] == [b, b] && [b, b] + none == [b, b] && none + none == none;
    assert Drain(ls, b, 0) == ([], 0);
    assert Drain(ls, b, 1) == ([b], 0);
    assert Drain(ls, b, 2) == ([b, b], 0);
    assert Drain(ls, a, 0) == ([], 0);
    assert Walk(ls, 0, 0) == ([], 0);
    assert Walk(ls, 1, 0) == ([], 0);
  }

  // ---------------------------------------------------------------------------
  // The source's procedure, phase by phase

  /** `optimalListings`: fill the cost table in place, scan it for the cheapest total at or
      above the need, then walk back through the listings pushing the ones the table explains. */
  method OptimalListings(listings: seq<Listing>, quantityNeeded: int) returns (result: seq<Listing>)
    ensures result == Selection(listings, quantityNeeded)
    ensures quantityNeeded > Units(listings) ==> result == []
    ensures forall x :: x in result ==> x in listings
  {
    var dp := FillTable(listings);
    var minQ := CheapestTotal(listings, dp, quantityNeeded);
    if minQ == -1 || dp[minQ] == Inf {
      result := [];
    } else {
      result := WalkBack(listings, dp, minQ);
    }
    SelectionProperties(listings, quantityNeeded);
  }

  /** The fill loop: afterwards entry `q` is the least cost of exactly `q` units. */
  method FillTable(listings: seq<Listing>) returns (dp: array<Cost>)
    ensures fresh(dp) && dp.Length == Units(listings) + 1
    ensures forall q :: 0 <= q < dp.Length ==> dp[q] == Best(listings, q)
  {
    var maxQ := Units(listings);
    dp := new Cost[maxQ + 1](_ => Inf);
    dp[0] := Fin(0);
    assert listings[..0] == [];
    for i := 0 to |listings|
      invariant forall q :: 0 <= q <= maxQ ==> dp[q] == Best(listings[..i], q)
    {
      var item := listings[i];
      var quantity, pricePerUnit := item.quantity, item.pricePerUnit;
      var q := maxQ;
      while q >= quantity
        invariant q <= maxQ && (q >= quantity - 1 || q == maxQ)
        invariant forall j :: q < j <= maxQ ==> dp[j] == Best(listings[..i + 1], j)
        invariant forall j :: 0 <= j <= q ==> dp[j] == Best(listings[..i], j)
      {
        BestStep(listings, i, q);
        assert quantity * pricePerUnit == Price(item);
        var relaxed := Min(dp[q], Plus(dp[q - quantity], quantity * pricePerUnit));
        assert relaxed == Best(listings[..i + 1], q);
        dp[q] := relaxed;
        q := q - 1;
      }
      forall j | 0 <= j <= q
        ensures dp[j] == Best(listings[..i + 1], j)
      {
        BestStep(listings, i, j);
      }
    }
    assert listings[..|listings|] == listings;
  }

  /** The scan: the lowest total at or above the need with the least finite entry, or -1. */
  method CheapestTotal(listings: seq<Listing>, dp: array<Cost>, quantityNeeded: int) returns (minQ: int)
    requires dp.Length == Units(listings) + 1
    requires forall q :: 0 <= q < dp.Length ==> dp[q] == Best(listings, q)
    ensures minQ == Target(listings, quantityNeeded)
    ensures IsCheapest(listings, Lo(quantityNeeded), Units(listings), minQ)
  {
    var maxQ := dp.Length - 1;
    ghost var lo := Lo(quantityNeeded);
    var minCost := Inf;
    minQ := -1;
    var q := quantityNeeded;
    while q <= maxQ
      invariant quantityNeeded <= q && (q <= maxQ + 1 || q == quantityNeeded)
      invariant minQ == -1 ==> minCost == Inf && forall j :: lo <= j < q ==> Best(listings, j).Inf?
      invariant minQ != -1 ==> lo <= minQ < q && minQ <= maxQ && minCost == Best(listings, minQ) && minCost.Fin?
      invariant minQ != -1 ==> forall j :: lo <= j < q ==> AtMost(minCost, Best(listings, j))
      invariant minQ != -1 ==> forall j :: lo <= j < minQ ==> Less(minCost, Best(listings, j))
    {
      if q >= 0 && Less(dp[q], minCost) {
        minCost := dp[q];
        minQ := q;
      }
      q := q + 1;
    }
    CheapestUnique(listings, lo, maxQ, minQ);
  }

  /** The reconstruction: from the last listing down, push a listing for as long as the
      table says the remaining total is that listing plus a smaller total. */
  method WalkBack(listings: seq<Listing>, dp: array<Cost>, minQ: nat) returns (result: seq<Listing>)
    requires dp.Length == Units(listings) + 1 && minQ < dp.Length
    requires forall q :: 0 <= q < dp.Length ==> dp[q] == Best(listings, q)
    ensures result == Walk(listings, |listings|, minQ).0
  {
    result := [];
    var currentQ := minQ;
    ghost var final := Walk(listings, |listings|, minQ).0;
    var i := |listings| - 1;
    while i >= 0
      invariant -1 <= i < |listings|
      invariant 0 <= currentQ <= minQ
      invariant result + Walk(listings, i + 1, currentQ).0 == final
    {
      var item := listings[i];
      var quantity, pricePerUnit := item.quantity, item.pricePerUnit;
      ghost var start, d := result, Drain(listings, item, currentQ);
      while currentQ >= quantity && dp[currentQ] == Plus(dp[currentQ - quantity], quantity * pricePerUnit)
        invariant 0 <= currentQ <= minQ
        invariant result + Drain(listings, item, currentQ).0 == start + d.0
        invariant Drain(listings, item, currentQ).1 == d.1
        decreases currentQ
      {
        ghost var rest := Drain(listings, item, currentQ - quantity).0;
        Associative(result, [item], rest);
        result := result + [item];
        currentQ := currentQ - quantity;
      }
      assert currentQ >= quantity ==> dp[currentQ] == Best(listings, currentQ) && dp[currentQ - quantity] == Best(listings, currentQ - quantity);
      assert Drain(listings, item, currentQ) == ([], currentQ);
      assert result + [] == result;
      assert result == start + d.0 && currentQ == d.1;
      ghost var w := Walk(listings, i, d.1).0;
      Associative(start, d.0, w);
      i := i - 1;
    }
  }

  // ---------------------------------------------------------------------------
  // The intended selection

  /** The selection the doc comment of `optimalListings` (src/components/Content.tsx:86-90)
      describes: a subset of the listings whose quantities add up to at least the need, at the
      least total price. It aims at the same target total as the source, then rebuilds the
      choice from the per-prefix tables, so that every listing is taken at most once and the
      walk ends at zero. Empty exactly when the need is not a positive quantity within the
      listed total. */
  function OptimalSelection(ls: seq<Listing>, need: int): (r: seq<Listing>)
    ensures r != [] <==> 1 <= need <= Units(ls)
    ensures r != [] ==> Units(r) >= need
    ensures forall x :: x in r ==> x in ls
  {
    TargetInRange(ls, need);
    var t := Target(ls, need);
    if t == -1 then []
    else
      var m := Rebuild(ls, t);
      PickedFrom(ls, m);
      BestOfNothing(ls);
      assert need <= 0 ==> t == 0 by {
        if need <= 0 {
          assert AtMost(Best(ls, t), Best(ls, 0));
        }
      }
      Picked(ls, m)
  }

  /** The intended selection is a choice of whole listings, each used once, that covers the
      need and costs no more than any other such choice. */
  lemma OptimalSelectionIsCheapest(ls: seq<Listing>, need: int, m: seq<bool>)
    requires |m| == |ls| && Units(Picked(ls, m)) >= need
    ensures exists m' :: |m'| == |ls| && OptimalSelection(ls, need) == Picked(ls, m')
    ensures Spend(OptimalSelection(ls, need)) <= Spend(Picked(ls, m))
  {
    var u := Units(Picked(ls, m));
    PickedFrom(ls, m);
    BestIsLowerBound(ls, m);
    TargetInRange(ls, need);
    var t := Target(ls, need);
    assert t != -1;
    var m' := Rebuild(ls, t);
    assert OptimalSelection(ls, need) == Picked(ls, m');
    assert AtMost(Best(ls, t), Best(ls, u));
  }
}
