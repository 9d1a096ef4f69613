/**
 * What `transform_Script` (vnnlib/compat.py) delivers, with the polytope rows
 * numbered in order: each disjunct's box lies within the box of the
 * unconditional assertions, each disjunct's polytope starts with their
 * polytope and adds one row per output row of the disjunct, every disjunct
 * lands in exactly one group, and no two groups share a box.
 */
module CompatScriptProperties {
  import opened Errors
  import opened Keys
  import opened Compat
  import opened CompatScript

  // ---------------------------------------------------------------------
  // Boxes

  /** Whether the interval `inner` lies within `outer`. */
  predicate Within(inner: Interval, outer: Interval) {
    AtMost(outer.lo, inner.lo) && AtMost(inner.hi, outer.hi)
  }

  /** Whether each interval of the box `inner` lies within the matching interval of `outer`. */
  predicate BoxWithin(inner: seq<Interval>, outer: seq<Interval>) {
    |inner| == |outer| && forall i | 0 <= i < |inner| :: Within(inner[i], outer[i])
  }

  lemma BoxWithinTransitive(a: seq<Interval>, b: seq<Interval>, c: seq<Interval>)
    requires BoxWithin(a, b) && BoxWithin(b, c)
    ensures BoxWithin(a, c)
  {
    forall i | 0 <= i < |a|
      ensures Within(a[i], c[i])
    {
      assert Within(a[i], b[i]) && Within(b[i], c[i]);
    }
  }

  /**
   * An input coefficient is accepted exactly when it is 1 or -1 and its index
   * lies in the box (negative indices counting from the end); otherwise the
   * coefficient, or else the index, is reported.
   */
  lemma BoxEntryOk(sc: Scan, row: int, index: int, v: real)
    ensures BoxEntry(sc, row, index, v).Ok? <==> (v == 1.0 || v == -1.0) && -|sc.box| <= index < |sc.box|
    ensures v != 1.0 && v != -1.0 ==> BoxEntry(sc, row, index, v) == Err(RuntimeError("unexpected lhs coeff for box: " + CoefText(v)))
    ensures (v == 1.0 || v == -1.0) && !(-|sc.box| <= index < |sc.box|)
      ==> BoxEntry(sc, row, index, v) == Err(IndexError("list index out of range"))
  {
  }

  /**
   * An input coefficient only tightens the box, at one input: 1 lowers its
   * upper bound to minus the row's constant if that is lower, -1 raises its
   * lower bound to the constant if that is higher. The row becomes a box row,
   * the constant is used up, and the polytope is untouched.
   */
  lemma BoxEntryNarrows(sc: Scan, row: int, index: int, v: real)
    requires BoxEntry(sc, row, index, v).Ok?
    ensures var r := BoxEntry(sc, row, index, v).value;
      var i := if index < 0 then index + |sc.box| else index;
      0 <= i < |sc.box|
      && BoxWithin(r.box, sc.box)
      && (forall j | 0 <= j < |sc.box| && j != i :: r.box[j] == sc.box[j])
      && (v == 1.0 ==> r.box[i].lo == sc.box[i].lo && AtMost(r.box[i].hi, Fin(-sc.rhs))
                       && (r.box[i].hi == sc.box[i].hi || r.box[i].hi == Fin(-sc.rhs)))
      && (v == -1.0 ==> r.box[i].hi == sc.box[i].hi && AtMost(Fin(sc.rhs), r.box[i].lo)
                        && (r.box[i].lo == sc.box[i].lo || r.box[i].lo == Fin(sc.rhs)))
      && r.polytope == sc.polytope && r.outputRows == sc.outputRows
      && r.boxRows == sc.boxRows + {row} && r.rhs == 0.0
  {
    var r := BoxEntry(sc, row, index, v).value;
    var i := if index < 0 then index + |sc.box| else index;
    forall j | 0 <= j < |sc.box|
      ensures Within(r.box[j], sc.box[j])
    {
      if j == i {
        if v == 1.0 {
          assert AtMost(r.box[j].hi, sc.box[j].hi);
        }
      }
    }
  }

  // ---------------------------------------------------------------------
  // Polytopes

  /** The length of `[0 for _ in range(n)]`. */
  function Width(n: int): nat {
    if n > 0 then n else 0
  }

  /** Whether a key is an output coefficient `(row, 1, index)`. */
  predicate IsOutputKey(k: Key) {
    |k.index| == 2 && k.index[0] == 1
  }

  /** The rows of the output coefficients among the keys `ks`. */
  ghost function OutputRowsIn(ks: seq<Key>): set<int> {
    set k | k in ks && IsOutputKey(k) :: k.row
  }

  /** The rows of the output coefficients of a form: the rows that become polytope rows. */
  ghost function OutputRows(m: map<Key, real>): set<int> {
    set k | k in m && IsOutputKey(k) :: k.row
  }

  /**
   * A scan's polytope: the rows before `base` as they were given, then one
   * row per output row seen so far, each `width` coefficients wide.
   */
  ghost predicate Shaped(sc: Scan, base: nat, width: nat) {
    |sc.polytope| == base + |sc.outputRows|
    && forall j | base <= j < |sc.polytope| :: |sc.polytope[j].coeffs| == width
  }

  /**
   * With the rows numbered in order, an output coefficient fails only when
   * its index lies outside the output vector. It writes the last polytope
   * row, which it first appends when its row is new, and keeps the shape.
   */
  lemma PolytopeEntryShape(sc: Scan, row: int, index: int, v: real, base: nat, outputSize: int)
    requires Shaped(sc, base, Width(outputSize))
    ensures var r := PolytopeEntry(sc, row, index, v, base, outputSize, false);
      var w: int := Width(outputSize);
      (r.Ok? <==> -w <= index < w)
      && (r.Err? ==> r.error == IndexError("list assignment index out of range"))
      && (r.Ok? ==>
            Shaped(r.value, base, w)
            && r.value.outputRows == sc.outputRows + {row}
            && |r.value.polytope| == |sc.polytope| + (if row in sc.outputRows then 0 else 1)
            && r.value.polytope[..base] == sc.polytope[..base]
            && r.value.polytope[|r.value.polytope| - 1].coeffs[if index < 0 then index + w else index] == v
            && r.value.box == sc.box && r.value.boxRows == sc.boxRows)
  {
    var rows := sc.outputRows + {row};
    var p := PolytopeRow(rows, row, base, false);
    if row in sc.outputRows {
      assert rows == sc.outputRows;
    } else {
      assert |rows| == |sc.outputRows| + 1;
    }
    var grows := |sc.polytope| <= p;
    var polytope := if grows then sc.polytope + [PolyRow(Zeros(outputSize), sc.rhs)] else sc.polytope;
    assert p == |polytope| - 1;
    assert |polytope[p].coeffs| == Width(outputSize);
    var r := PolytopeEntry(sc, row, index, v, base, outputSize, false);
    if r.Ok? {
      var polytope' := r.value.polytope;
      assert polytope'[..base] == polytope[..base] == sc.polytope[..base];
    }
  }

  /**
   * One entry of a sorted form, rows numbered in order: the box only
   * narrows, the rows before `base` stay, and the shape is kept, an output
   * coefficient adding its row to those seen.
   */
  lemma ScanEntryShape(sc: Scan, k: Key, v: real, base: nat, outputSize: int)
    requires Shaped(sc, base, Width(outputSize))
    requires ScanEntry(sc, k, v, base, outputSize, false).Ok?
    ensures var r := ScanEntry(sc, k, v, base, outputSize, false).value;
      Shaped(r, base, Width(outputSize))
      && BoxWithin(r.box, sc.box)
      && r.polytope[..base] == sc.polytope[..base]
      && r.outputRows == sc.outputRows + (if IsOutputKey(k) then {k.row} else {})
  {
    var varType, index := k.index[0], k.index[1];
    if varType == 0 {
      BoxEntryNarrows(sc, k.row, index, v);
    } else if varType == 1 {
      PolytopeEntryShape(sc, k.row, index, v, base, outputSize);
    }
  }

  /** The output rows of a sequence of keys: those of its first key, then those of the rest. */
  lemma OutputRowsInStep(ks: seq<Key>)
    requires ks != []
    ensures OutputRowsIn(ks) == (if IsOutputKey(ks[0]) then {ks[0].row} else {}) + OutputRowsIn(ks[1..])
  {
    var first := if IsOutputKey(ks[0]) then {ks[0].row} else {};
    forall x
      ensures x in OutputRowsIn(ks) <==> x in first + OutputRowsIn(ks[1..])
    {
      if x in OutputRowsIn(ks) {
        var k :| k in ks && IsOutputKey(k) && k.row == x;
        if k != ks[0] {
          var i :| 0 <= i < |ks| && ks[i] == k;
          assert ks[1..][i - 1] == k;
        }
      }
      if x in OutputRowsIn(ks[1..]) {
        var k :| k in ks[1..] && IsOutputKey(k) && k.row == x;
        var i :| 0 <= i < |ks| - 1 && ks[1..][i] == k;
        assert ks[i + 1] == k;
      }
    }
  }

  /** The entries at the keys `ks`, rows numbered in order: `ScanEntryShape`, entry by entry. */
  lemma {:induction false} ScanEntriesShape(sc: Scan, m: map<Key, real>, ks: seq<Key>, base: nat, outputSize: int)
    requires Shaped(sc, base, Width(outputSize))
    requires ScanEntries(sc, m, ks, base, outputSize, false).Ok?
    ensures var r := ScanEntries(sc, m, ks, base, outputSize, false).value;
      Shaped(r, base, Width(outputSize))
      && BoxWithin(r.box, sc.box)
      && r.polytope[..base] == sc.polytope[..base]
      && r.outputRows == sc.outputRows + OutputRowsIn(ks)
    decreases |ks|
  {
    if ks == [] {
      assert OutputRowsIn(ks) == {};
    } else {
      var v := Coef(m, ks[0]);
      var next := ScanEntry(sc, ks[0], v, base, outputSize, false).value;
      EntriesCons(sc, m, ks, base, outputSize, false, next);
      ScanEntryShape(sc, ks[0], v, base, outputSize);
      ScanEntriesShape(next, m, ks[1..], base, outputSize);
      var r := ScanEntries(next, m, ks[1..], base, outputSize, false).value;
      OutputRowsInStep(ks);
      ShapeComposes(sc, next, r, base, Width(outputSize), if IsOutputKey(ks[0]) then {ks[0].row} else {}, OutputRowsIn(ks[1..]));
    }
  }

  /** The shape facts of one step, then of the steps after it, are those of the whole pass. */
  lemma ShapeComposes(sc: Scan, next: Scan, r: Scan, base: nat, width: nat, first: set<int>, rest: set<int>)
    requires base <= |sc.polytope| && base <= |next.polytope| && base <= |r.polytope|
    requires BoxWithin(next.box, sc.box) && next.polytope[..base] == sc.polytope[..base]
    requires next.outputRows == sc.outputRows + first
    requires BoxWithin(r.box, next.box) && r.polytope[..base] == next.polytope[..base]
    requires r.outputRows == next.outputRows + rest
    ensures BoxWithin(r.box, sc.box) && r.polytope[..base] == sc.polytope[..base]
    ensures r.outputRows == sc.outputRows + (first + rest)
  {
    BoxWithinTransitive(r.box, next.box, sc.box);
  }

  /** The keys of a form, sorted, hold its output rows. */
  lemma SortedOutputRows(m: map<Key, real>)
    ensures OutputRowsIn(SortedKeys(m.Keys)) == OutputRows(m)
  {
    var ks := SortedKeys(m.Keys);
    forall x
      ensures x in OutputRowsIn(ks) <==> x in OutputRows(m)
    {
      if x in OutputRows(m) {
        var k :| k in m && IsOutputKey(k) && k.row == x;
        assert k in ks;
      }
    }
  }

  /**
   * A pass over a form on top of a box and polytope, rows numbered in order:
   * the box only narrows, the polytope keeps its rows and gains one row per
   * output row of the form, as wide as the output vector.
   */
  lemma ScanFormShape(start: Branch, m: map<Key, real>, outputSize: int)
    requires ScanForm(start, m, |start.polytope|, outputSize, false).Ok?
    ensures var b := ScanForm(start, m, |start.polytope|, outputSize, false).value;
      BoxWithin(b.box, start.box)
      && start.polytope <= b.polytope
      && |b.polytope| == |start.polytope| + |OutputRows(m)|
      && forall j | |start.polytope| <= j < |b.polytope| :: |b.polytope[j].coeffs| == Width(outputSize)
  {
    var base := |start.polytope|;
    var init := Scan(start.box, start.polytope, {}, {}, 0.0);
    var ks := SortedKeys(m.Keys);
    ScanEntriesShape(init, m, ks, base, outputSize);
    SortedOutputRows(m);
    var r := ScanEntries(init, m, ks, base, outputSize, false).value;
    assert start.polytope == r.polytope[..base];
  }

  // ---------------------------------------------------------------------
  // Groups

  /** The boxes of the groups. */
  ghost function Boxes(groups: seq<Group>): set<seq<Interval>> {
    set i | 0 <= i < |groups| :: groups[i].box
  }

  /** Whether no two groups share a box, as the keys of `results` are distinct. */
  ghost predicate DistinctBoxes(groups: seq<Group>) {
    forall i, j | 0 <= i < j < |groups| :: groups[i].box != groups[j].box
  }

  /** The number of polytopes over all groups. */
  function Count(groups: seq<Group>): nat
    decreases |groups|
  {
    if groups == [] then 0 else |groups[0].polytopes| + Count(groups[1..])
  }

  /**
   * Whether every group is non-empty, its box lies within `common`'s box and
   * each of its polytopes starts with `common`'s polytope.
   */
  ghost predicate Bounded(groups: seq<Group>, common: Branch) {
    forall i | 0 <= i < |groups| ::
      groups[i].polytopes != []
      && BoxWithin(groups[i].box, common.box)
      && forall j | 0 <= j < |groups[i].polytopes| :: common.polytope <= groups[i].polytopes[j]
  }

  /** The boxes of a non-empty sequence of groups: the first group's, then the rest's. */
  lemma BoxesStep(groups: seq<Group>)
    requires groups != []
    ensures Boxes(groups) == {groups[0].box} + Boxes(groups[1..])
  {
    forall x | x in Boxes(groups)
      ensures x in {groups[0].box} + Boxes(groups[1..])
    {
      var i :| 0 <= i < |groups| && groups[i].box == x;
      if i > 0 {
        assert groups[1..][i - 1].box == x;
      }
    }
    forall x | x in Boxes(groups[1..])
      ensures x in Boxes(groups)
    {
      var i :| 0 <= i < |groups| - 1 && groups[1..][i].box == x;
      assert groups[i + 1].box == x;
    }
  }

  /**
   * A disjunct joins the group of its box, or opens a new group at the end
   * when no group has it.
   */
  lemma {:induction false} AddBranchBoxes(groups: seq<Group>, b: Branch)
    ensures var r := AddBranch(groups, b);
      Boxes(r) == Boxes(groups) + {b.box}
      && |r| == |groups| + (if b.box in Boxes(groups) then 0 else 1)
    decreases |groups|
  {
    var r := AddBranch(groups, b);
    if groups == [] {
      assert Boxes(r) == {b.box} by {
        assert r[0].box == b.box;
      }
    } else {
      BoxesStep(groups);
      BoxesStep(r);
      if groups[0].box != b.box {
        AddBranchBoxes(groups[1..], b);
        assert r[1..] == AddBranch(groups[1..], b);
      } else {
        assert r[1..] == groups[1..];
      }
    }
  }

  /** A disjunct adds one polytope. */
  lemma {:induction false} AddBranchCount(groups: seq<Group>, b: Branch)
    ensures Count(AddBranch(groups, b)) == Count(groups) + 1
    decreases |groups|
  {
    var r := AddBranch(groups, b);
    if groups == [] {
      assert r[1..] == [];
    } else if groups[0].box == b.box {
      assert r[1..] == groups[1..];
    } else {
      AddBranchCount(groups[1..], b);
      assert r[1..] == AddBranch(groups[1..], b);
    }
  }

  /** Groups with distinct boxes keep them distinct. */
  lemma {:induction false} AddBranchDistinct(groups: seq<Group>, b: Branch)
    requires DistinctBoxes(groups)
    ensures DistinctBoxes(AddBranch(groups, b))
    decreases |groups|
  {
    var r := AddBranch(groups, b);
    if groups == [] {
    } else if groups[0].box == b.box {
      assert r[1..] == groups[1..];
      assert forall i | 0 <= i < |r| :: r[i].box == groups[i].box;
    } else {
      var rest := AddBranch(groups[1..], b);
      AddBranchDistinct(groups[1..], b);
      AddBranchBoxes(groups[1..], b);
      BoxesStep(groups);
      assert r[1..] == rest;
      forall i, j | 0 <= i < j < |r|
        ensures r[i].box != r[j].box
      {
        if i == 0 {
          assert rest[j - 1] == r[j];
          assert r[j].box in Boxes(rest);
        } else {
          assert rest[i - 1] == r[i] && rest[j - 1] == r[j];
        }
      }
    }
  }

  /** A disjunct within the common part keeps the groups within it. */
  lemma {:induction false} AddBranchBounded(groups: seq<Group>, b: Branch, common: Branch)
    requires Bounded(groups, common)
    requires BoxWithin(b.box, common.box) && common.polytope <= b.polytope
    ensures Bounded(AddBranch(groups, b), common)
    decreases |groups|
  {
    var r := AddBranch(groups, b);
    if groups == [] {
    } else if groups[0].box == b.box {
      assert r[1..] == groups[1..];
      var ps := r[0].polytopes;
      assert ps == groups[0].polytopes + [b.polytope];
      assert forall j | 0 <= j < |ps| - 1 :: ps[j] == groups[0].polytopes[j];
      assert forall i | 1 <= i < |r| :: r[i] == groups[i];
    } else {
      AddBranchBounded(groups[1..], b, common);
      var rest := AddBranch(groups[1..], b);
      assert r[1..] == rest;
      assert forall i | 1 <= i < |r| :: r[i] == rest[i - 1];
    }
  }

  /**
   * The loop over the disjuncts, rows numbered in order: every disjunct is
   * scanned on top of the common part and lands in exactly one group, so the
   * boxes stay distinct and the polytopes grow by one per disjunct.
   */
  lemma {:induction false} CollectGroups(groups: seq<Group>, common: Branch, ds: seq<map<Key, real>>, outputSize: int)
    requires DistinctBoxes(groups) && Bounded(groups, common)
    requires Collect(groups, common, ds, outputSize, false).Ok?
    ensures var r := Collect(groups, common, ds, outputSize, false).value;
      DistinctBoxes(r) && Bounded(r, common) && Count(r) == Count(groups) + |ds|
    decreases |ds|
  {
    if ds != [] {
      var b := ScanForm(common, ds[0], |common.polytope|, outputSize, false).value;
      ScanFormShape(common, ds[0], outputSize);
      AddBranchCount(groups, b);
      AddBranchDistinct(groups, b);
      AddBranchBounded(groups, b, common);
      CollectGroups(AddBranch(groups, b), common, ds[1..], outputSize);
    }
  }

  /**
   * `transform_Script`, rows numbered in order: the unconditional assertions
   * make a box as long as the input vector and one polytope row per output
   * row; the result has one polytope per disjunct, no two groups share a box,
   * and every disjunct's box and polytope refine the unconditional ones.
   */
  lemma FinaliseShape(st: CompatState)
    requires Finalise(st).Ok?
    ensures var common := ScanForm(Branch(Unbounded(st.inputSize), []), st.assertions, 0, st.outputSize, false);
      common.Ok?
      && |common.value.box| == Width(st.inputSize)
      && |common.value.polytope| == |OutputRows(st.assertions)|
      && var groups := Finalise(st).value;
      DistinctBoxes(groups) && Bounded(groups, common.value) && Count(groups) == |st.disjunctions|
  {
    var start := Branch(Unbounded(st.inputSize), []);
    var common := ScanForm(start, st.assertions, 0, st.outputSize, false).value;
    ScanFormShape(start, st.assertions, st.outputSize);
    CollectGroups([], common, st.disjunctions, st.outputSize);
  }
}
