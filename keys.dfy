/**
 * The dictionary keys of the constraint compiler (vnnlib/compat.py): tuples
 * of integers written `(row, *index)`, and Python's ordering of tuples, by
 * which `transform_Script` walks a dictionary's entries.
 */
module Keys {

  /** The tuple `(row, *index)`. */
  datatype Key = Key(row: int, index: seq<int>)

  /** Python's `<` on tuples of integers: the first difference decides, and a proper prefix comes first. */
  predicate IntsLess(a: seq<int>, b: seq<int>)
    decreases |a|
  {
    if a == [] then b != []
    else b != [] && (a[0] < b[0] || (a[0] == b[0] && IntsLess(a[1..], b[1..])))
  }

  /** Python's `<` on keys. */
  predicate KeyLess(a: Key, b: Key) {
    a.row < b.row || (a.row == b.row && IntsLess(a.index, b.index))
  }

  lemma {:induction false} IntsLessIrreflexive(a: seq<int>)
    ensures !IntsLess(a, a)
    decreases |a|
  {
    if a != [] {
      IntsLessIrreflexive(a[1..]);
    }
  }

  lemma {:induction false} IntsLessTransitive(a: seq<int>, b: seq<int>, c: seq<int>)
    requires IntsLess(a, b) && IntsLess(b, c)
    ensures IntsLess(a, c)
    decreases |a|
  {
    if a != [] && a[0] == b[0] && b[0] == c[0] {
      IntsLessTransitive(a[1..], b[1..], c[1..]);
    }
  }

  lemma {:induction false} IntsLessTotal(a: seq<int>, b: seq<int>)
    requires a != b
    ensures IntsLess(a, b) || IntsLess(b, a)
    decreases |a|
  {
    if a != [] && b != [] && a[0] == b[0] {
      assert a == [a[0]] + a[1..] && b == [b[0]] + b[1..];
      IntsLessTotal(a[1..], b[1..]);
    }
  }

  /** Keys are strictly and totally ordered. */
  lemma KeyOrder()
    ensures forall a: Key :: !KeyLess(a, a)
    ensures forall a: Key, b: Key, c: Key :: KeyLess(a, b) && KeyLess(b, c) ==> KeyLess(a, c)
    ensures forall a: Key, b: Key :: a != b ==> KeyLess(a, b) || KeyLess(b, a)
  {
    forall a: Key {
      IntsLessIrreflexive(a.index);
    }
    forall a: Key, b: Key, c: Key | KeyLess(a, b) && KeyLess(b, c)
      ensures KeyLess(a, c)
    {
      if a.row == b.row == c.row {
        IntsLessTransitive(a.index, b.index, c.index);
      }
    }
    forall a: Key, b: Key | a != b
      ensures KeyLess(a, b) || KeyLess(b, a)
    {
      if a.row == b.row {
        IntsLessTotal(a.index, b.index);
      }
    }
  }

  /** Each key comes before every later one. */
  ghost predicate Ascending(ks: seq<Key>) {
    forall i, j | 0 <= i < j < |ks| :: KeyLess(ks[i], ks[j])
  }

  ghost predicate Distinct(ks: seq<Key>) {
    forall i, j | 0 <= i < j < |ks| :: ks[i] != ks[j]
  }

  /** `k` placed before the first key of `ks` it comes before. */
  function Insert(k: Key, ks: seq<Key>): (r: seq<Key>)
    ensures |r| == |ks| + 1
    ensures forall x :: x in r <==> x == k || x in ks
  {
    if ks == [] then [k]
    else if KeyLess(k, ks[0]) then [k] + ks
    else [ks[0]] + Insert(k, ks[1..])
  }

  lemma {:induction false} InsertAscending(k: Key, ks: seq<Key>)
    requires Ascending(ks) && k !in ks
    ensures Ascending(Insert(k, ks))
  {
    KeyOrder();
    if ks != [] && !KeyLess(k, ks[0]) {
      InsertAscending(k, ks[1..]);
      var r := Insert(k, ks);
      assert KeyLess(ks[0], k);
      forall j | 0 < j < |r|
        ensures KeyLess(r[0], r[j])
      {
        assert r[j] in Insert(k, ks[1..]);
      }
    }
  }

  /** Insertion sort. */
  function Sort(ks: seq<Key>): (r: seq<Key>)
    ensures |r| == |ks|
    ensures forall x :: x in r <==> x in ks
  {
    if ks == [] then [] else Insert(ks[0], Sort(ks[1..]))
  }

  /** Sorting distinct keys puts them in ascending order. */
  lemma {:induction false} SortAscending(ks: seq<Key>)
    requires Distinct(ks)
    ensures Ascending(Sort(ks))
  {
    if ks != [] {
      assert Distinct(ks[1..]) by {
        forall i, j | 0 <= i < j < |ks| - 1
          ensures ks[1..][i] != ks[1..][j]
        {
          assert ks[1..][i] == ks[i + 1] && ks[1..][j] == ks[j + 1];
        }
      }
      SortAscending(ks[1..]);
      assert ks[0] !in ks[1..] by {
        forall j | 0 <= j < |ks| - 1
          ensures ks[1..][j] != ks[0]
        {
          assert ks[1..][j] == ks[j + 1];
        }
      }
      InsertAscending(ks[0], Sort(ks[1..]));
    }
  }

  /** Two ascending sequences of the same keys are the same sequence. */
  lemma {:induction false} AscendingUnique(a: seq<Key>, b: seq<Key>)
    requires Ascending(a) && Ascending(b)
    requires forall x :: x in a <==> x in b
    ensures a == b
    decreases |a|
  {
    KeyOrder();
    assert a != [] ==> a[0] in b;
    assert b != [] ==> b[0] in a;
    if a != [] && b != [] {
      var a0, b0 := a[0], b[0];
      var i :| 0 <= i < |a| && a[i] == b0;
      var j :| 0 <= j < |b| && b[j] == a0;
      assert i == 0 || KeyLess(a0, b0);
      assert j == 0 || KeyLess(b0, a0);
      assert a0 == b0;
      assert a == [a[0]] + a[1..] && b == [b[0]] + b[1..];
      forall x
        ensures x in a[1..] <==> x in b[1..]
      {
        if x in a[1..] {
          var i :| 0 <= i < |a| - 1 && a[1..][i] == x;
          assert KeyLess(a[0], a[i + 1]);
          assert x in b && x != b[0];
        }
        if x in b[1..] {
          var j :| 0 <= j < |b| - 1 && b[1..][j] == x;
          assert KeyLess(b[0], b[j + 1]);
          assert x in a && x != a[0];
        }
      }
      AscendingUnique(a[1..], b[1..]);
    }
  }

  /** Some enumeration of a finite set of keys, without repetitions. */
  ghost function Enumerate(s: set<Key>): (r: seq<Key>)
    ensures Distinct(r) && forall x :: x in r <==> x in s
  {
    if s == {} then []
    else
      var k :| k in s;
      var rest := Enumerate(s - {k});
      assert forall j | 0 <= j < |rest| :: ([k] + rest)[j + 1] == rest[j];
      [k] + rest
  }

  /** The keys of a dictionary in Python's `sorted` order. */
  ghost function SortedKeys(s: set<Key>): (r: seq<Key>)
    ensures Ascending(r) && forall x :: x in r <==> x in s
  {
    SortAscending(Enumerate(s));
    Sort(Enumerate(s))
  }

  /** `sorted(d)`: the dictionary's keys, listed, then sorted. */
  method SortKeys(m: map<Key, real>) returns (ks: seq<Key>)
    ensures ks == SortedKeys(m.Keys)
  {
    var listed: seq<Key> := [];
    var left := m.Keys;
    while left != {}
      invariant Distinct(listed)
      invariant forall x :: x in m.Keys <==> x in listed || x in left
      invariant forall x :: x in listed ==> x !in left
      decreases left
    {
      var k :| k in left;
      listed := listed + [k];
      left := left - {k};
    }
    ks := Sort(listed);
    SortAscending(listed);
    AscendingUnique(ks, SortedKeys(m.Keys));
  }
}
