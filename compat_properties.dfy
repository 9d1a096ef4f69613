/**
 * What the handlers of `CompatTransformer` (vnnlib/compat.py) promise: the
 * names of vector elements and their keys, the numbering of other
 * variables, the sizes a declaration infers, the forms a comparison and a
 * conjunction build, and how an assertion records its form.
 */
module CompatProperties {
  import opened Errors
  import opened Lexicon
  import opened Ast
  import opened Keys
  import opened Transformer
  import opened Compat

  // ---------------------------------------------------------------------
  // Names

  /** Splitting at every separator and joining with it again gives the string back. */
  lemma {:induction false} SplitJoin(s: string, sep: char)
    ensures Join(Split(s, sep), sep) == s
    decreases |s|
  {
    if s != [] {
      var rest := Split(s[1..], sep);
      SplitJoin(s[1..], sep);
      if s[0] == sep {
        assert s == [sep] + s[1..];
      } else if |rest| == 1 {
        assert Split(s, sep) == [[s[0]] + rest[0]];
      } else {
        var parts := Split(s, sep);
        assert parts[1..] == rest[1..];
        assert Join(rest, sep) == rest[0] + [sep] + Join(rest[1..], sep);
      }
    }
  }

  /** A string without the separator is one piece. */
  lemma {:induction false} SplitWhole(s: string, sep: char)
    requires sep !in s
    ensures Split(s, sep) == [s]
    decreases |s|
  {
    if s != [] {
      SplitWhole(s[1..], sep);
      assert [s[0]] + s[1..] == s;
    }
  }

  /** The first piece runs up to the first separator. */
  lemma {:induction false} SplitAt(a: string, b: string, sep: char)
    requires sep !in a
    ensures Split(a + [sep] + b, sep) == [a] + Split(b, sep)
    decreases |a|
  {
    var s := a + [sep] + b;
    if a == [] {
      assert s[1..] == b;
    } else {
      assert s[1..] == a[1..] + [sep] + b;
      SplitAt(a[1..], b, sep);
      assert [a[0]] + a[1..] == a;
    }
  }

  /** Pieces without the separator, joined with it, split back into the same pieces. */
  lemma {:induction false} JoinSplit(parts: seq<string>, sep: char)
    requires |parts| >= 1
    requires forall i | 0 <= i < |parts| :: sep !in parts[i]
    ensures Split(Join(parts, sep), sep) == parts
    decreases |parts|
  {
    if |parts| == 1 {
      SplitWhole(parts[0], sep);
    } else {
      JoinSplit(parts[1..], sep);
      SplitAt(parts[0], Join(parts[1..], sep), sep);
      assert [parts[0]] + parts[1..] == parts;
    }
  }

  /** `int(str(i)) == i`. */
  lemma PyIntOfString(i: int)
    ensures PyInt(IntToString(i)) == Ok(i)
  {
    var text := IntToString(i);
    if i < 0 {
      var digits := ToDigits(-i, Dec);
      DigitsRoundTrip(-i, Dec);
      assert text[1..] == digits;
      assert IntOf(digits, Dec) == Ok(-i);
    } else {
      var digits := ToDigits(i, Dec);
      DigitsRoundTrip(i, Dec);
      assert IsDigit(text[0]);
      assert text[0] != '-' && text[0] != '+';
      assert IntOf(digits, Dec) == Ok(i);
    }
  }

  /** The decimal spelling of an integer has no underscore. */
  lemma NoUnderscore(i: int)
    ensures '_' !in IntToString(i)
  {
    var s := IntToString(i);
    var digits := if i < 0 then ToDigits(-i, Dec) else ToDigits(i, Dec);
    assert forall j | 0 <= j < |digits| :: Dec.IsDigitOf(digits[j]);
    if i < 0 {
      assert s == "-" + digits;
    }
  }

  /** The name of the `i`-th element of the vector `name`, as a script writes it. */
  function Element(name: string, i: int): string {
    Prefix(name) + IntToString(i)
  }

  /** The index pieces of an element name. */
  lemma ElementPieces(name: string, i: int)
    requires '_' !in name
    ensures Split(Element(name, i), '_')[1..] == [IntToString(i)]
    ensures PyInts(Split(Element(name, i), '_')[1..]) == Ok([i])
    ensures SecondPiece(Element(name, i)) == Ok(IntToString(i))
    ensures Prefix(name) <= Element(name, i)
  {
    NoUnderscore(i);
    assert Element(name, i) == name + ['_'] + IntToString(i);
    SplitAt(name, IntToString(i), '_');
    SplitWhole(IntToString(i), '_');
    PyIntOfString(i);
    assert PyInts([IntToString(i)]) == Ok([i]) by {
      assert [IntToString(i)][1..] == [];
      assert [i] + [] == [i];
    }
  }

  /** A name `a` whose `a_` prefixes `b_s` and is longer than `b` holds `b`'s underscore. */
  lemma LongerPrefix(a: string, b: string, s: string)
    requires Prefix(a) <= b + "_" + s && |a| > |b|
    ensures a[|b|] == '_'
  {
    assert Prefix(a)[|b|] == (b + "_" + s)[|b|];
  }

  /** A name `a` whose `a_` prefixes `b_s` and is shorter than `b` puts its underscore in `b`. */
  lemma ShorterPrefix(a: string, b: string, s: string)
    requires Prefix(a) <= b + "_" + s && |a| < |b|
    ensures b[|a|] == '_'
  {
    assert Prefix(a)[|a|] == (b + "_" + s)[|a|];
  }

  /** Two names without underscores, one the other's prefix up to an underscore, are the same name. */
  lemma PrefixOfElement(a: string, b: string, s: string)
    requires '_' !in a && '_' !in b
    requires Prefix(a) <= b + "_" + s
    ensures a == b
  {
    var t := b + "_" + s;
    if |a| < |b| {
      ShorterPrefix(a, b, s);
      assert false;
    } else if |a| == |b| {
      assert Prefix(a)[..|a|] == t[..|a|];
      assert a == Prefix(a)[..|a|];
      assert b == t[..|b|];
    } else {
      LongerPrefix(a, b, s);
      assert false;
    }
  }

  /** `X_i` is the coefficient 1 at `(0, 0, i)`: the input vector's type 0 and its index. */
  lemma InputElement(st: CompatState, i: int)
    requires '_' !in st.inputName
    ensures Identify(st, Element(st.inputName, i)) == Ok(Out(Dict(map[Key(0, [0, i]) := 1.0]), st))
  {
    ElementPieces(st.inputName, i);
    assert [0] + [i] == [0, i];
  }

  /** `Y_i` is the coefficient 1 at `(0, 1, i)`, when the input vector has another name. */
  lemma OutputElement(st: CompatState, i: int)
    requires '_' !in st.inputName && '_' !in st.outputName && st.inputName != st.outputName
    ensures Identify(st, Element(st.outputName, i)) == Ok(Out(Dict(map[Key(0, [1, i]) := 1.0]), st))
  {
    ElementPieces(st.outputName, i);
    if Prefix(st.inputName) <= Element(st.outputName, i) {
      PrefixOfElement(st.inputName, st.outputName, IntToString(i));
    }
    assert [1] + [i] == [1, i];
  }

  /** The numbers given to other variables: distinct, from 2 up to the count plus one. */
  ghost predicate IdsValid(ids: map<string, int>) {
    (forall n | n in ids :: 2 <= ids[n] < |ids| + 2)
    && (forall a, b | a in ids && b in ids && a != b :: ids[a] != ids[b])
  }

  /**
   * Any other variable is numbered the first time it is met, with a number no
   * variable has and that is not a type of the vectors (-1, 0, 1); earlier
   * numbers never change.
   */
  lemma IdentifyNumbers(st: CompatState, value: string)
    requires IdsValid(st.idMap)
    requires !(Prefix(st.inputName) <= value) && !(Prefix(st.outputName) <= value) && value !in Connectives
    ensures var r := Identify(st, value);
      r.Ok? && value in r.value.state.idMap
      && r.value.value == Dict(map[Key(0, [r.value.state.idMap[value]]) := 1.0])
      && r.value.state.idMap[value] >= 2
      && IdsValid(r.value.state.idMap)
      && (forall n | n in st.idMap :: n in r.value.state.idMap && r.value.state.idMap[n] == st.idMap[n])
      && r.value.state == st.(idMap := r.value.state.idMap)
  {
    if value !in st.idMap {
      var ids := st.idMap[value := |st.idMap| + 2];
      assert |ids| == |st.idMap| + 1;
      assert forall n | n in ids :: 2 <= ids[n] < |ids| + 2;
    }
  }

  /** Every identifier keeps the number it was given: identifying it again changes nothing. */
  lemma IdentifyStable(st: CompatState, value: string)
    requires Identify(st, value).Ok?
    ensures var r := Identify(st, value).value;
      Identify(r.state, value) == Ok(r)
  {
  }

  /** An identifier leaves everything but the variable numbering as it was. */
  lemma IdentifyKeepsRest(st: CompatState, value: string)
    requires Identify(st, value).Ok?
    ensures var next := Identify(st, value).value.state;
      next == st.(idMap := next.idMap)
      && (forall n | n in st.idMap :: n in next.idMap && next.idMap[n] == st.idMap[n])
  {
    var next := Identify(st, value).value.state;
    if !(Prefix(st.inputName) <= value || Prefix(st.outputName) <= value || value in Connectives || value in st.idMap) {
      assert next == st.(idMap := st.idMap[value := |st.idMap| + 2]);
    }
  }

  // ---------------------------------------------------------------------
  // Declarations

  /**
   * A declaration changes at most the sizes, only ever upwards, and a size
   * given to the constructor never changes.
   */
  lemma DeclareOnlyWidens(st: CompatState, symbol: string, sort: string)
    requires Declare(st, symbol, sort).Ok?
    ensures var r := Declare(st, symbol, sort).value;
      r.value == NoneValue
      && r.state == st.(inputSize := r.state.inputSize, outputSize := r.state.outputSize)
      && r.state.inputSize >= st.inputSize && r.state.outputSize >= st.outputSize
      && (!st.inferInputSize ==> r.state.inputSize == st.inputSize)
      && (!st.inferOutputSize ==> r.state.outputSize == st.outputSize)
  {
    var r := Declare(st, symbol, sort).value;
    if st.inferInputSize && Prefix(st.inputName) <= symbol {
      assert r.state == st.(inputSize := r.state.inputSize);
    } else if st.inferOutputSize && Prefix(st.outputName) <= symbol {
      assert r.state == st.(outputSize := r.state.outputSize);
    } else {
      assert r.state == st;
    }
  }

  /** Declaring `X_i` while inferring the input size makes the input vector at least `i + 1` long. */
  lemma DeclareInputElement(st: CompatState, i: int, sort: string)
    requires st.inferInputSize && '_' !in st.inputName
    ensures Declare(st, Element(st.inputName, i), sort)
      == Ok(Out(NoneValue, st.(inputSize := Max(st.inputSize, i + 1))))
  {
    ElementPieces(st.inputName, i);
    PyIntOfString(i);
  }

  /** Declaring `Y_i` while inferring the output size, and not the input's, makes the output vector at least `i + 1` long. */
  lemma DeclareOutputElement(st: CompatState, i: int, sort: string)
    requires st.inferOutputSize && '_' !in st.inputName && '_' !in st.outputName && st.inputName != st.outputName
    ensures Declare(st, Element(st.outputName, i), sort)
      == Ok(Out(NoneValue, st.(outputSize := Max(st.outputSize, i + 1))))
  {
    ElementPieces(st.outputName, i);
    PyIntOfString(i);
    if Prefix(st.inputName) <= Element(st.outputName, i) {
      PrefixOfElement(st.inputName, st.outputName, IntToString(i));
    }
  }

  /** An element name with more than one index cannot be declared while its vector's size is inferred. */
  lemma DeclareTwoIndices(st: CompatState, i: int, j: int, sort: string)
    requires st.inferInputSize && '_' !in st.inputName
    ensures Declare(st, Element(st.inputName, i) + "_" + IntToString(j), sort)
      == Err(ValueError("too many values to unpack (expected 2)"))
  {
    var symbol := Element(st.inputName, i) + "_" + IntToString(j);
    TwoIndicesSplit(st.inputName, i, j);
    assert SecondPiece(symbol) == Err(ValueError(UnpackMessage(2, 3)));
    assert IntToString(2) == "2";
    assert UnpackMessage(2, 3) == "too many values to unpack (expected 2)";
  }

  /** An element name with two indices is an element name that splits into three pieces. */
  lemma TwoIndicesSplit(name: string, i: int, j: int)
    requires '_' !in name
    ensures var symbol := Element(name, i) + "_" + IntToString(j);
      Prefix(name) <= symbol && |Split(symbol, '_')| == 3
  {
    NoUnderscore(i);
    NoUnderscore(j);
    var symbol := Element(name, i) + "_" + IntToString(j);
    assert symbol == name + ['_'] + (IntToString(i) + ['_'] + IntToString(j));
    SplitAt(name, IntToString(i) + ['_'] + IntToString(j), '_');
    SplitAt(IntToString(i), IntToString(j), '_');
    SplitWhole(IntToString(j), '_');
    assert symbol == Prefix(name) + (IntToString(i) + "_" + IntToString(j));
  }

  // ---------------------------------------------------------------------
  // Comparisons

  /** `(>= a b)` is `(<= b a)`, errors included. */
  lemma GreaterIsSwappedLess(a: Value, b: Value)
    ensures Comparison([a, b], true) == Comparison([b, a], false)
  {
  }

  /**
   * A comparison needs exactly two forms; `(<= l r)` is the form `l - r`,
   * read as "at most 0", over the keys of both sides.
   */
  lemma ComparisonForm(terms: seq<Value>, greater: bool)
    ensures Comparison(terms, greater).Ok? <==> |terms| == 2 && terms[0].Dict? && terms[1].Dict?
    ensures |terms| != 2 ==> Comparison(terms, greater) == Err(ValueError(UnpackMessage(2, |terms|)))
    ensures Comparison(terms, greater).Ok? ==>
      var (l, r) := if greater then (terms[1].entries, terms[0].entries) else (terms[0].entries, terms[1].entries);
      var d := Comparison(terms, greater).value;
      d.Dict? && d.entries.Keys == l.Keys + r.Keys
      && forall k :: Coef(d.entries, k) == Coef(l, k) - Coef(r, k)
  {
  }

  // ---------------------------------------------------------------------
  // Conjunctions and disjunctions

  /** A row-0 form moved to row `i`: the same indices and coefficients, row `i`. */
  lemma AtRowKeys(m: map<Key, real>, i: int)
    requires RowZero(m)
    ensures forall k | k in m :: Key(i, k.index) in AtRow(m, i) && AtRow(m, i)[Key(i, k.index)] == m[k]
    ensures forall k | k in AtRow(m, i) :: k.row == i && Key(0, k.index) in m
  {
    forall k | k in AtRow(m, i)
      ensures k.row == i && Key(0, k.index) in m
    {
      var o :| o in m && Key(i, o.index) == k;
      assert o == Key(0, o.index);
    }
  }

  /** Whether a value can be the `i`-th argument of `and`. */
  predicate Conjoinable(v: Value) {
    v.Dict? && RowZero(v.entries) && Triples(v.entries)
  }

  /** Whether the form `c` holds the argument `terms[j]` in row `i + j`, and nothing else. */
  ghost predicate Filled(c: map<Key, real>, terms: seq<Value>, i: int) {
    (forall k | k in c ::
      i <= k.row < i + |terms| && terms[k.row - i].Dict? && Key(0, k.index) in terms[k.row - i].entries
      && c[k] == terms[k.row - i].entries[Key(0, k.index)])
    && (forall j, k | 0 <= j < |terms| && terms[j].Dict? && k in terms[j].entries && k.row == 0 :: Key(i + j, k.index) in c)
  }

  /** The first argument's row, in front of the rows of the others. */
  lemma FilledCons(terms: seq<Value>, i: int, rest: map<Key, real>)
    requires terms != [] && Conjoinable(terms[0]) && Filled(rest, terms[1..], i + 1)
    ensures Filled(AtRow(terms[0].entries, i) + rest, terms, i)
  {
    var a := AtRow(terms[0].entries, i);
    var c := a + rest;
    AtRowKeys(terms[0].entries, i);
    forall k | k in c
      ensures i <= k.row < i + |terms| && terms[k.row - i].Dict? && Key(0, k.index) in terms[k.row - i].entries
        && c[k] == terms[k.row - i].entries[Key(0, k.index)]
    {
      if k in rest {
        assert terms[1..][k.row - i - 1] == terms[k.row - i];
      } else {
        assert k in a;
        assert Key(0, k.index) in terms[0].entries;
        assert a[k] == a[Key(i, Key(0, k.index).index)];
      }
    }
    forall j, k | 0 <= j < |terms| && terms[j].Dict? && k in terms[j].entries && k.row == 0
      ensures Key(i + j, k.index) in c
    {
      if j > 0 {
        assert terms[1..][j - 1] == terms[j];
        assert Key(i + 1 + (j - 1), k.index) in rest;
      }
    }
  }

  /**
   * `and` succeeds exactly when every argument is an atom of row 0 with
   * three-element keys; the `j`-th argument then fills row `i + j`, and no
   * other row.
   */
  lemma {:induction false} ConjoinRows(terms: seq<Value>, i: int)
    ensures ConjoinFrom(terms, i).Ok? <==> forall j | 0 <= j < |terms| :: Conjoinable(terms[j])
    ensures ConjoinFrom(terms, i).Ok? ==> Filled(ConjoinFrom(terms, i).value, terms, i)
    decreases |terms|
  {
    if terms != [] {
      ConjoinRows(terms[1..], i + 1);
      assert forall j | 1 <= j < |terms| :: terms[j] == terms[1..][j - 1];
      if ConjoinFrom(terms, i).Ok? {
        FilledCons(terms, i, ConjoinFrom(terms[1..], i + 1).value);
      }
    }
  }

  /** Whether a value can be an argument of `or`: a list of forms. */
  predicate Disjoinable(v: Value) {
    v.List? && forall j | 0 <= j < |v.items| :: v.items[j].Dict?
  }

  /** `or` succeeds exactly when every argument is a list of forms, and lists the forms of all of them. */
  lemma {:induction false} DisjoinForms(terms: seq<Value>)
    ensures Disjoin(terms).Ok? <==> forall j | 0 <= j < |terms| :: Disjoinable(terms[j])
    ensures Disjoin(terms).Ok? ==>
      forall v :: v in Disjoin(terms).value <==> exists j | 0 <= j < |terms| :: v in terms[j].items
    decreases |terms|
  {
    if terms != [] {
      DisjoinForms(terms[1..]);
      assert forall j | 1 <= j < |terms| :: terms[j] == terms[1..][j - 1];
      if Disjoin(terms).Ok? {
        forall v | exists j | 0 <= j < |terms| :: v in terms[j].items
          ensures v in Disjoin(terms).value
        {
          var j :| 0 <= j < |terms| && v in terms[j].items;
          if j > 0 {
            assert v in terms[1..][j - 1].items;
          }
        }
      }
    }
  }

  /** `and` and `or` yield a list of forms; any other function than the four connectives is refused. */
  lemma ApplyFunctionShape(symbol: Value, terms: seq<Value>)
    ensures symbol in {Str("and"), Str("or")} && ApplyFunction(symbol, terms).Ok? ==> Disjoinable(ApplyFunction(symbol, terms).value)
    ensures symbol !in {Str("<="), Str(">="), Str("and"), Str("or")} ==>
      ApplyFunction(symbol, terms) == Err(NotImplementedError("Function " + HeadRepr(symbol) + " is not supported by the legacy parser"))
  {
    if symbol == Str("or") && ApplyFunction(symbol, terms).Ok? {
      DisjoinForms(terms);
      forall j | 0 <= j < |Disjoin(terms).value|
        ensures Disjoin(terms).value[j].Dict?
      {
        var v := Disjoin(terms).value[j];
        assert v in Disjoin(terms).value;
        var i :| 0 <= i < |terms| && v in terms[i].items;
        var l :| 0 <= l < |terms[i].items| && terms[i].items[l] == v;
      }
    }
  }

  // ---------------------------------------------------------------------
  // Assertions

  /** Whether a form uses no negative row, as every compiled form does. */
  ghost predicate NonNegativeRows(m: map<Key, real>) {
    forall k | k in m :: k.row >= 0
  }
  /** Whether every recorded row lies below the row counter. */
  ghost predicate RowsBelow(st: CompatState) {
    forall k | k in st.assertions :: 0 <= k.row < st.numAssertions
  }
  /** An entry of a form, shifted. */
  lemma ShiftedHas(m: map<Key, real>, offset: int, k: Key)
    requires k in m
    ensures Key(k.row + offset, k.index) in Shifted(m, offset)
    ensures Shifted(m, offset)[Key(k.row + offset, k.index)] == m[k]
  {
  }
  /** Every key of a shifted form comes from the form. */
  lemma ShiftedFrom(m: map<Key, real>, offset: int, k: Key)
    requires k in Shifted(m, offset)
    ensures Key(k.row - offset, k.index) in m
  {
    var o :| o in m && Key(o.row + offset, o.index) == k;
    assert o == Key(k.row - offset, k.index);
  }
  /** Every row of a non-empty form is at most its greatest row. */
  lemma BelowTopRow(m: map<Key, real>)
    ensures forall k | k in m :: k.row <= TopRow(m)
  {
    if m != map[] {
      forall k | k in m
        ensures k.row <= TopRow(m)
      {
        assert k.row in Rows(m);
      }
    }
  }

  /** A form joined by another shifted past its rows keeps its own entries. */
  lemma UnionKeeps(base: map<Key, real>, m: map<Key, real>, offset: int)
    requires forall k | k in base :: k.row < offset
    requires NonNegativeRows(m)
    ensures forall k | k in base :: k in base + Shifted(m, offset) && (base + Shifted(m, offset))[k] == base[k]
  {
    forall k | k in base
      ensures k in base + Shifted(m, offset) && (base + Shifted(m, offset))[k] == base[k]
    {
      if k in Shifted(m, offset) {
        ShiftedFrom(m, offset, k);
      }
    }
  }

  /** A form joined by another shifted holds each of the other's entries, `offset` rows up. */
  lemma UnionPlaces(base: map<Key, real>, m: map<Key, real>, offset: int)
    ensures forall k | k in m ::
      (Key(k.row + offset, k.index) in base + Shifted(m, offset)
       && (base + Shifted(m, offset))[Key(k.row + offset, k.index)] == m[k])
  {
    forall k | k in m
      ensures Key(k.row + offset, k.index) in base + Shifted(m, offset)
        && (base + Shifted(m, offset))[Key(k.row + offset, k.index)] == m[k]
    {
      ShiftedHas(m, offset, k);
    }
  }

  /** A form joined by another shifted holds nothing else. */
  lemma UnionOnly(base: map<Key, real>, m: map<Key, real>, offset: int)
    ensures forall k | k in base + Shifted(m, offset) :: k in base || Key(k.row - offset, k.index) in m
  {
    forall k | k in base + Shifted(m, offset)
      ensures k in base || Key(k.row - offset, k.index) in m
    {
      if k !in base {
        ShiftedFrom(m, offset, k);
      }
    }
  }

  /** Recording a form keeps every entry recorded before. */
  lemma RecordKeeps(st: CompatState, m: map<Key, real>)
    requires RowsBelow(st) && NonNegativeRows(m)
    ensures forall k | k in st.assertions :: k in Record(st, m).assertions && Record(st, m).assertions[k] == st.assertions[k]
  {
    UnionKeeps(st.assertions, m, st.numAssertions);
    RecordUnfolded(st, m);
  }

  /** Recording a form puts each of its entries as many rows up as the counter says. */
  lemma RecordPlaces(st: CompatState, m: map<Key, real>)
    ensures forall k | k in m ::
      (Key(k.row + st.numAssertions, k.index) in Record(st, m).assertions
       && Record(st, m).assertions[Key(k.row + st.numAssertions, k.index)] == m[k])
  {
    UnionPlaces(st.assertions, m, st.numAssertions);
    RecordUnfolded(st, m);
  }

  /** Recording a form adds nothing but its shifted entries. */
  lemma RecordOnly(st: CompatState, m: map<Key, real>)
    ensures forall k | k in Record(st, m).assertions :: k in st.assertions || Key(k.row - st.numAssertions, k.index) in m
  {
    UnionOnly(st.assertions, m, st.numAssertions);
    RecordUnfolded(st, m);
  }

  /**
   * Recording a form keeps the recorded rows below the counter, and moves the
   * counter exactly when the form has entries.
   */
  lemma RecordAdvances(st: CompatState, m: map<Key, real>)
    requires RowsBelow(st) && NonNegativeRows(m)
    ensures RowsBelow(Record(st, m))
    ensures Record(st, m).numAssertions > st.numAssertions <==> m != map[]
  {
    var num := st.numAssertions;
    var next := Record(st, m);
    BelowTopRow(m);
    UnionOnly(st.assertions, m, num);
    forall k | k in next.assertions
      ensures 0 <= k.row < next.numAssertions
    {
      if k !in st.assertions {
        assert Key(k.row - num, k.index) in m;
      }
    }
    if m != map[] {
      var o :| o in m;
    }
  }

  /** An alternative keeps its own entries. */
  lemma AlternativeKeeps(d: map<Key, real>, previous: map<Key, real>)
    requires NonNegativeRows(previous)
    ensures forall k | k in d :: k in Alternative(d, previous) && Alternative(d, previous)[k] == d[k]
  {
    BelowTopRow(d);
    UnionKeeps(d, previous, TopRow(d) + 1);
    AlternativeUnfolded(d, previous, TopRow(d) + 1);
  }

  /** An alternative holds the previous disjunct's entries, moved `offset` rows up, just above its own greatest row. */
  lemma AlternativePlaces(d: map<Key, real>, previous: map<Key, real>, offset: int)
    requires offset == TopRow(d) + 1
    ensures forall k | k in previous ::
      (Key(k.row + offset, k.index) in Alternative(d, previous)
       && Alternative(d, previous)[Key(k.row + offset, k.index)] == previous[k])
  {
    UnionPlaces(d, previous, offset);
    AlternativeUnfolded(d, previous, offset);
  }

  /** An alternative holds nothing else. */
  lemma AlternativeOnly(d: map<Key, real>, previous: map<Key, real>)
    ensures forall k | k in Alternative(d, previous) :: k in d || Key(k.row - (TopRow(d) + 1), k.index) in previous
  {
    UnionOnly(d, previous, TopRow(d) + 1);
    AlternativeUnfolded(d, previous, TopRow(d) + 1);
  }

  /**
   * An assertion of a single form (a form, or a list of one) records it and
   * keeps the disjuncts; any other list replaces a single disjunct by its
   * alternatives, and two disjunctions are refused.
   */
  lemma AssertForms(st: CompatState, term: Value)
    requires RowsBelow(st)
    requires term.Dict? ==> NonNegativeRows(term.entries)
    requires term.List? && |term.items| == 1 && term.items[0].Dict? ==> NonNegativeRows(term.items[0].entries)
    ensures var r := AssertTerm(st, term);
      (r.Ok? <==> (term.Dict? || (term.List? && |term.items| == 1 && term.items[0].Dict?)
                   || (term.List? && |term.items| != 1 && |st.disjunctions| == 1 && Alternatives(term.items, st.disjunctions[0]).Ok?)))
      && (r.Ok? ==> RowsBelow(r.value.state))
      && (r.Ok? && term.List? && |term.items| != 1 ==> r.value.state == st.(disjunctions := r.value.state.disjunctions))
      && (r.Ok? && !(term.List? && |term.items| != 1) ==> r.value.state.disjunctions == st.disjunctions)
      && (term.List? && |term.items| != 1 && |st.disjunctions| != 1 ==> r == Err(AssertionError("")))
  {
    if term.Dict? {
      RecordAdvances(st, term.entries);
    } else if term.List? && |term.items| == 1 && term.items[0].Dict? {
      RecordAdvances(st, term.items[0].entries);
    }
  }

  /** A disjunction succeeds exactly when each alternative is a form. */
  lemma {:induction false} AlternativesOk(items: seq<Value>, previous: map<Key, real>)
    ensures Alternatives(items, previous).Ok? <==> forall j | 0 <= j < |items| :: items[j].Dict?
    decreases |items|
  {
    if items != [] {
      AlternativesOk(items[1..], previous);
      assert forall j | 1 <= j < |items| :: items[j] == items[1..][j - 1];
    }
  }

  /** A disjunction yields one disjunct per alternative. */
  lemma {:induction false} AlternativesLength(items: seq<Value>, previous: map<Key, real>)
    ensures Alternatives(items, previous).Ok? ==> |Alternatives(items, previous).value| == |items|
    decreases |items|
  {
    if items != [] {
      AlternativesLength(items[1..], previous);
    }
  }

  /** The `j`-th disjunct of a disjunction is its `j`-th alternative, on top of the previous disjunct. */
  lemma {:induction false} AlternativesAt(items: seq<Value>, previous: map<Key, real>, j: int)
    requires Alternatives(items, previous).Ok? && 0 <= j < |items|
    ensures |Alternatives(items, previous).value| == |items| && items[j].Dict?
    ensures Alternatives(items, previous).value[j..j + 1] == [Alternative(items[j].entries, previous)]
    decreases |items|
  {
    AlternativesLength(items, previous);
    AlternativesCons(items, previous);
    var all := Alternatives(items, previous).value;
    var rest := Alternatives(items[1..], previous).value;
    var first := Alternative(items[0].entries, previous);
    if j == 0 {
      assert all[0..1] == [first];
    } else {
      AlternativesAt(items[1..], previous, j - 1);
      assert items[1..][j - 1] == items[j];
      assert all[j..j + 1] == rest[j - 1..j];
    }
  }

  /** An accepted disjunction: the first alternative, then the others. */
  lemma AlternativesCons(items: seq<Value>, previous: map<Key, real>)
    requires Alternatives(items, previous).Ok? && items != []
    ensures items[0].Dict? && Alternatives(items[1..], previous).Ok?
    ensures Alternatives(items, previous).value
      == [Alternative(items[0].entries, previous)] + Alternatives(items[1..], previous).value
  {
  }
}
