/**
 * The numbering of the polytope rows in `transform_Script` (vnnlib/compat.py).
 *
 * The source writes an output row's coefficients into polytope row
 * `row - min(output_rows)` (plus the common polytope's length). When a row
 * without output coefficients, such as an input bound, lies between two
 * output rows, that number skips past the end of the polytope and the
 * assignment raises IndexError. `Finalise` numbers the output rows by rank
 * instead. Whenever the source's numbering succeeds the two agree, so the
 * correction only changes inputs the source rejects.
 */
module CompatFindings {
  import opened Errors
  import opened Keys
  import opened Compat
  import opened CompatScript

  // ---------------------------------------------------------------------
  // A script the source rejects

  /**
   * The state after `(assert (<= Y_0 0))`, `(assert (<= X_0 0))`,
   * `(assert (<= Y_0 0))` with one input and one output: output rows 0 and 2,
   * an input bound in row 1.
   */
  function Interleaved(): CompatState {
    CompatState("X", "Y", 1, 1, false, false, map[],
      map[Key(0, [-1, -1]) := 0.0, Key(0, [1, 0]) := 1.0,
          Key(1, [-1, -1]) := 0.0, Key(1, [0, 0]) := 1.0,
          Key(2, [-1, -1]) := 0.0, Key(2, [1, 0]) := 1.0],
      3, [map[]])
  }

  /** The keys of `Interleaved`'s assertions in Python's sorted order. */
  function InterleavedKeys(): seq<Key> {
    [Key(0, [-1, -1]), Key(0, [1, 0]), Key(1, [-1, -1]), Key(1, [0, 0]), Key(2, [-1, -1]), Key(2, [1, 0])]
  }

  lemma InterleavedSorted()
    ensures SortedKeys(Interleaved().assertions.Keys) == InterleavedKeys()
  {
    var ks := InterleavedKeys();
    assert Ascending(ks) by {
      forall i, j | 0 <= i < j < |ks|
        ensures KeyLess(ks[i], ks[j])
      {
        if ks[i].row == ks[j].row {
          assert IntsLess(ks[i].index, ks[j].index);
        }
      }
    }
    AscendingUnique(SortedKeys(Interleaved().assertions.Keys), ks);
  }

  /** The coefficients of `Interleaved`'s assertions, key by key in sorted order. */
  lemma InterleavedCoefs()
    ensures var m, ks := Interleaved().assertions, InterleavedKeys();
      Coef(m, ks[0]) == 0.0 && Coef(m, ks[1]) == 1.0 && Coef(m, ks[2]) == 0.0
      && Coef(m, ks[3]) == 1.0 && Coef(m, ks[4]) == 0.0 && Coef(m, ks[5]) == 1.0
  {
  }

  /** The scan before the first key: the unbounded box of one input, no polytope. */
  function Start(): Scan {
    Scan([Interval(NegInf, PosInf)], [], {}, {}, 0.0)
  }

  /** After the output coefficient of row 0: its polytope row 0. */
  function FirstOutputRow(): Scan {
    Scan([Interval(NegInf, PosInf)], [PolyRow([1.0], 0.0)], {}, {0}, 0.0)
  }

  /** Then the input bound of row 1: the input is at most 0. */
  function AfterInputBound(): Scan {
    Scan([Interval(NegInf, Fin(0.0))], [PolyRow([1.0], 0.0)], {1}, {0}, 0.0)
  }

  /** Row 0's output coefficient appends polytope row 0 under either numbering. */
  lemma FirstOutputStep(asWritten: bool)
    ensures ScanEntry(Start(), Key(0, [1, 0]), 1.0, 0, 1, asWritten) == Ok(FirstOutputRow())
  {
    var rows: set<int> := {} + {0};
    assert rows == {0};
    assert Least(rows) == 0 && |rows| == 1;
    assert Zeros(1) == [0.0];
    assert [] + [PolyRow([0.0], 0.0)] == [PolyRow([0.0], 0.0)];
    assert [0.0][0 := 1.0] == [1.0];
    assert [PolyRow([0.0], 0.0)][0 := PolyRow([1.0], 0.0)] == [PolyRow([1.0], 0.0)];
  }

  /** Row 1's input coefficient 1 with constant 0 bounds the input above by 0. */
  lemma InputBoundStep(asWritten: bool)
    ensures ScanEntry(FirstOutputRow(), Key(1, [0, 0]), 1.0, 0, 1, asWritten) == Ok(AfterInputBound())
  {
    assert {} + {1} == {1};
    assert [Interval(NegInf, PosInf)][0 := Interval(NegInf, Fin(0.0))] == [Interval(NegInf, Fin(0.0))];
  }

  /** The scans of both numberings agree on the first four keys. */
  lemma InterleavedPrefix(asWritten: bool)
    ensures var ks := InterleavedKeys();
      ScanEntries(Start(), Interleaved().assertions, ks, 0, 1, asWritten)
      == ScanEntries(AfterInputBound(), Interleaved().assertions, ks[4..], 0, 1, asWritten)
  {
    var m := Interleaved().assertions;
    var ks := InterleavedKeys();
    InterleavedCoefs();
    FirstOutputStep(asWritten);
    InputBoundStep(asWritten);
    EntriesCons(Start(), m, ks, 0, 1, asWritten, Start());
    EntriesCons(Start(), m, ks[1..], 0, 1, asWritten, FirstOutputRow());
    EntriesCons(FirstOutputRow(), m, ks[2..], 0, 1, asWritten, FirstOutputRow());
    EntriesCons(FirstOutputRow(), m, ks[3..], 0, 1, asWritten, AfterInputBound());
    assert ks[1..][1..] == ks[2..] && ks[2..][1..] == ks[3..] && ks[3..][1..] == ks[4..];
  }

  /** As written, row 2's output coefficient is numbered 2 - 0 = 2, past the one row appended for it. */
  lemma SecondOutputAsWritten()
    ensures ScanEntry(AfterInputBound(), Key(2, [1, 0]), 1.0, 0, 1, true) == Err(IndexError("list index out of range"))
  {
    assert {0} + {2} == {0, 2};
    assert Least({0, 2}) == 0;
  }

  /** Numbered by rank, row 2's output coefficient appends and writes polytope row 1. */
  lemma SecondOutputCorrected()
    ensures ScanEntry(AfterInputBound(), Key(2, [1, 0]), 1.0, 0, 1, false)
      == Ok(Scan([Interval(NegInf, Fin(0.0))], [PolyRow([1.0], 0.0), PolyRow([1.0], 0.0)], {1}, {0, 2}, 0.0))
  {
    var rows: set<int> := {0} + {2};
    assert rows == {0, 2};
    assert |rows| == 2;
    assert Zeros(1) == [0.0];
    assert [0.0][0 := 1.0] == [1.0];
    var grown := [PolyRow([1.0], 0.0)] + [PolyRow([0.0], 0.0)];
    assert grown == [PolyRow([1.0], 0.0), PolyRow([0.0], 0.0)];
    assert grown[1 := PolyRow([1.0], 0.0)] == [PolyRow([1.0], 0.0), PolyRow([1.0], 0.0)];
  }

  /** The unconditional assertions of `Interleaved`, scanned with either numbering. */
  lemma InterleavedCommon(asWritten: bool)
    ensures ScanForm(Branch(Unbounded(1), []), Interleaved().assertions, 0, 1, asWritten)
      == var sc :- ScanEntries(AfterInputBound(), Interleaved().assertions, InterleavedKeys()[4..], 0, 1, asWritten);
         Ok(Branch(sc.box, sc.polytope))
  {
    var m := Interleaved().assertions;
    InterleavedSorted();
    StartForm(m, InterleavedKeys(), asWritten);
    InterleavedPrefix(asWritten);
  }

  /** A form over one input and one output, scanned from the unbounded box, as a pass from `Start`. */
  lemma StartForm(m: map<Key, real>, ks: seq<Key>, asWritten: bool)
    requires SortedKeys(m.Keys) == ks
    ensures ScanForm(Branch(Unbounded(1), []), m, 0, 1, asWritten)
      == var sc :- ScanEntries(Start(), m, ks, 0, 1, asWritten);
         Ok(Branch(sc.box, sc.polytope))
  {
    assert Unbounded(1) == [Interval(NegInf, PosInf)];
  }

  /**
   * As written, the second output row is numbered 2 - 0 = 2, past the one
   * row appended for it, and the assignment raises IndexError.
   */
  lemma InterleavedAsWritten()
    ensures FinaliseAsWritten(Interleaved()) == Err(IndexError("list index out of range"))
  {
    var m := Interleaved().assertions;
    var ks := InterleavedKeys();
    InterleavedCommon(true);
    InterleavedCoefs();
    SecondOutputAsWritten();
    EntriesCons(AfterInputBound(), m, ks[4..], 0, 1, true, AfterInputBound());
    assert ks[4..][1..] == ks[5..];
    assert ScanForm(Branch(Unbounded(1), []), m, 0, 1, true) == Err(IndexError("list index out of range"));
  }

  /** Numbered by rank, the unconditional assertions give a box and a polytope of two rows. */
  lemma CorrectedCommon()
    ensures ScanForm(Branch(Unbounded(1), []), Interleaved().assertions, 0, 1, false)
      == Ok(Branch([Interval(NegInf, Fin(0.0))], [PolyRow([1.0], 0.0), PolyRow([1.0], 0.0)]))
  {
    var m := Interleaved().assertions;
    var ks := InterleavedKeys();
    InterleavedCommon(false);
    CorrectedTail(m, ks[4..]);
  }

  /** Numbered by rank, the keys of row 2 after the input bound close the second polytope row. */
  lemma CorrectedTail(m: map<Key, real>, ks: seq<Key>)
    requires ks == [Key(2, [-1, -1]), Key(2, [1, 0])]
    requires Coef(m, ks[0]) == 0.0 && Coef(m, ks[1]) == 1.0
    ensures ScanEntries(AfterInputBound(), m, ks, 0, 1, false)
      == Ok(Scan([Interval(NegInf, Fin(0.0))], [PolyRow([1.0], 0.0), PolyRow([1.0], 0.0)], {1}, {0, 2}, 0.0))
  {
    SecondOutputCorrected();
    var last := Scan([Interval(NegInf, Fin(0.0))], [PolyRow([1.0], 0.0), PolyRow([1.0], 0.0)], {1}, {0, 2}, 0.0);
    EntriesCons(AfterInputBound(), m, ks, 0, 1, false, AfterInputBound());
    EntriesCons(AfterInputBound(), m, ks[1..], 0, 1, false, last);
    assert ks[1..][1..] == [];
  }

  /** Numbered by rank, rows 0 and 2 become polytope rows 0 and 1, and the one disjunct adds nothing. */
  lemma InterleavedCorrected()
    ensures Finalise(Interleaved())
      == Ok([Group([Interval(NegInf, Fin(0.0))], [[PolyRow([1.0], 0.0), PolyRow([1.0], 0.0)]])])
  {
    CorrectedCommon();
    EmptyDisjunct(Branch([Interval(NegInf, Fin(0.0))], [PolyRow([1.0], 0.0), PolyRow([1.0], 0.0)]));
  }

  /** An empty disjunct leaves the common box and polytope as they are. */
  lemma EmptyDisjunct(common: Branch)
    ensures Collect([], common, Interleaved().disjunctions, 1, false) == Ok([Group(common.box, [common.polytope])])
  {
    var empty: map<Key, real> := map[];
    assert SortedKeys(empty.Keys) == [];
    assert ScanForm(common, empty, |common.polytope|, 1, false) == Ok(common);
    assert [empty][1..] == [];
  }

  // ---------------------------------------------------------------------
  // Both numberings agree where the source's succeeds

  /** Adding a row at least as large as every row of a non-empty set keeps its least and makes it the greatest. */
  lemma ExtremesAdd(s: set<int>, x: int)
    requires s != {} && forall y | y in s :: y <= x
    ensures Least(s + {x}) == Least(s) && Greatest(s + {x}) == x
  {
    var l, l' := Least(s), Least(s + {x});
    assert l' <= l && l <= x;
    assert l <= l';
  }

  /** A one-row set is its own least and greatest row. */
  lemma SingletonExtremes(x: int)
    ensures Least({x}) == x && Greatest({x}) == x && |{x}| == 1
  {
  }

  /**
   * A scan whose output rows so far are contiguous, each with its own
   * polytope row after `base`: the state in which the two numberings agree.
   */
  ghost predicate Contiguous(sc: Scan, base: nat) {
    |sc.polytope| == base + |sc.outputRows|
    && (sc.outputRows != {} ==> Greatest(sc.outputRows) - Least(sc.outputRows) + 1 == |sc.outputRows|)
  }

  /**
   * The source's number `row - min(rows)` is the rank `|rows| - 1` when the
   * rows seen are contiguous, `row` is at least all of them, and the number
   * is at most one past the last polytope row.
   */
  lemma RankAgrees(seen: set<int>, row: int)
    requires seen != {} ==> Greatest(seen) - Least(seen) + 1 == |seen|
    requires forall r | r in seen :: r <= row
    requires row - Least(seen + {row}) <= |seen|
    ensures row - Least(seen + {row}) == |seen + {row}| - 1
    ensures Greatest(seen + {row}) - Least(seen + {row}) + 1 == |seen + {row}|
  {
    var rows := seen + {row};
    if row in seen {
      assert rows == seen;
      assert Greatest(rows) == row;
    } else if seen == {} {
      assert rows == {row};
      SingletonExtremes(row);
    } else {
      ExtremesAdd(seen, row);
      assert |rows| == |seen| + 1;
    }
  }

  /** An output coefficient accepted with the source's numbering is the same entry numbered by rank. */
  lemma PolytopeAgrees(sc: Scan, row: int, index: int, v: real, base: nat, outputSize: int)
    requires Contiguous(sc, base)
    requires forall r | r in sc.outputRows :: r <= row
    requires PolytopeEntry(sc, row, index, v, base, outputSize, true).Ok?
    ensures PolytopeEntry(sc, row, index, v, base, outputSize, true) == PolytopeEntry(sc, row, index, v, base, outputSize, false)
    ensures Contiguous(PolytopeEntry(sc, row, index, v, base, outputSize, true).value, base)
    ensures PolytopeEntry(sc, row, index, v, base, outputSize, true).value.outputRows == sc.outputRows + {row}
  {
    var rows := sc.outputRows + {row};
    assert PolytopeRow(rows, row, base, true) <= |sc.polytope|;
    RankAgrees(sc.outputRows, row);
    assert PolytopeRow(rows, row, base, true) == PolytopeRow(rows, row, base, false);
  }

  /**
   * An entry whose row is at least every output row seen, accepted with the
   * source's numbering, is the same entry with rows numbered by rank.
   */
  lemma EntryAgrees(sc: Scan, k: Key, v: real, base: nat, outputSize: int)
    requires Contiguous(sc, base)
    requires forall r | r in sc.outputRows :: r <= k.row
    requires ScanEntry(sc, k, v, base, outputSize, true).Ok?
    ensures ScanEntry(sc, k, v, base, outputSize, true) == ScanEntry(sc, k, v, base, outputSize, false)
    ensures Contiguous(ScanEntry(sc, k, v, base, outputSize, true).value, base)
    ensures ScanEntry(sc, k, v, base, outputSize, true).value.outputRows <= sc.outputRows + {k.row}
  {
    if |k.index| == 2 && k.index[0] == 1 && !(k.row in sc.boxRows) {
      PolytopeAgrees(sc, k.row, k.index[1], v, base, outputSize);
    }
  }

  /** Entries at ascending keys, accepted with the source's numbering, give the same scan with rows numbered by rank. */
  lemma {:induction false} EntriesAgree(sc: Scan, m: map<Key, real>, ks: seq<Key>, base: nat, outputSize: int)
    requires Contiguous(sc, base) && Ascending(ks)
    requires forall r, j | r in sc.outputRows && 0 <= j < |ks| :: r <= ks[j].row
    requires ScanEntries(sc, m, ks, base, outputSize, true).Ok?
    ensures ScanEntries(sc, m, ks, base, outputSize, true) == ScanEntries(sc, m, ks, base, outputSize, false)
    decreases |ks|
  {
    if ks != [] {
      var v := Coef(m, ks[0]);
      EntryAgrees(sc, ks[0], v, base, outputSize);
      var next := ScanEntry(sc, ks[0], v, base, outputSize, true).value;
      forall r, j | r in next.outputRows && 0 <= j < |ks| - 1
        ensures r <= ks[1..][j].row
      {
        assert KeyLess(ks[0], ks[j + 1]);
      }
      EntriesAgree(next, m, ks[1..], base, outputSize);
    }
  }

  /** A pass over ascending keys accepted with the source's numbering gives the same box and polytope as numbering by rank. */
  lemma KeysAgree(start: Branch, m: map<Key, real>, ks: seq<Key>, base: nat, outputSize: int)
    requires |start.polytope| == base && Ascending(ks)
    requires ScanKeys(start, m, ks, base, outputSize, true).Ok?
    ensures ScanKeys(start, m, ks, base, outputSize, true) == ScanKeys(start, m, ks, base, outputSize, false)
  {
    EntriesAgree(Scan(start.box, start.polytope, {}, {}, 0.0), m, ks, base, outputSize);
  }

  /** A pass over a form accepted with the source's numbering gives the same box and polytope as numbering by rank. */
  lemma FormAgrees(start: Branch, m: map<Key, real>, base: nat, outputSize: int)
    requires |start.polytope| == base
    requires ScanForm(start, m, base, outputSize, true).Ok?
    ensures ScanForm(start, m, base, outputSize, true) == ScanForm(start, m, base, outputSize, false)
  {
    KeysAgree(start, m, SortedKeys(m.Keys), base, outputSize);
  }

  lemma {:induction false} CollectAgrees(groups: seq<Group>, common: Branch, ds: seq<map<Key, real>>, outputSize: int)
    requires Collect(groups, common, ds, outputSize, true).Ok?
    ensures Collect(groups, common, ds, outputSize, true) == Collect(groups, common, ds, outputSize, false)
    decreases |ds|
  {
    if ds != [] {
      FormAgrees(common, ds[0], |common.polytope|, outputSize);
      var b := ScanForm(common, ds[0], |common.polytope|, outputSize, true).value;
      CollectAgrees(AddBranch(groups, b), common, ds[1..], outputSize);
    }
  }

  /**
   * Whenever `transform_Script` as written returns, numbering the rows by
   * rank returns the same groups: the correction changes only the scripts
   * the source rejects with IndexError.
   */
  lemma FinaliseAgrees(st: CompatState)
    requires FinaliseAsWritten(st).Ok?
    ensures FinaliseAsWritten(st) == Finalise(st)
  {
    var start := Branch(Unbounded(st.inputSize), []);
    FormAgrees(start, st.assertions, 0, st.outputSize);
    var common := ScanForm(start, st.assertions, 0, st.outputSize, true).value;
    CollectAgrees([], common, st.disjunctions, st.outputSize);
  }
}
