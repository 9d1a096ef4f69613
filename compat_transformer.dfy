/**
 * The class `CompatTransformer` (vnnlib/compat.py): its fields, its
 * `transform_*` methods and the traversal it inherits, each method proved to
 * compute the result and the new fields that the handler functions of
 * `Compat` and the finalisation of `CompatScript` prescribe.
 */
module CompatCompiler {
  import opened Errors
  import opened Ast
  import opened Keys
  import opened Transformer
  import opened Compat
  import opened CompatScript
  import opened CompatFindings

  /** A handler's value, without its state. */
  function ValueOf(r: Result<Out<CompatState>>): Result<Value> {
    if r.Ok? then Ok(r.value.value) else Err(r.error)
  }

  /** The values of a transformation of several terms, without the state. */
  function ValuesOf(r: Result<Outs<CompatState>>): Result<seq<Value>> {
    if r.Ok? then Ok(r.value.values) else Err(r.error)
  }

  /** A transformation of the remaining terms, with the values `acc` of the terms before them in front. */
  function PrependOuts(acc: seq<Value>, r: Result<Outs<CompatState>>): Result<Outs<CompatState>> {
    if r.Ok? then Ok(Outs(acc + r.value.values, r.value.state)) else r
  }

  /** The state a handler leaves: the new one on success, the old one on failure. */
  function StateAfter(st: CompatState, r: Result<Out<CompatState>>): CompatState {
    if r.Ok? then r.value.state else st
  }

  class CompatTransformer {
    const inputName: string
    const outputName: string
    var inputSize: int
    var outputSize: int
    const inferInputSize: bool
    const inferOutputSize: bool
    var idMap: map<string, int>
    var assertions: map<Key, real>
    var numAssertions: nat
    var disjunctions: seq<map<Key, real>>

    /** The fields as one value. */
    function State(): CompatState
      reads this
    {
      CompatState(inputName, outputName, inputSize, outputSize, inferInputSize, inferOutputSize,
        idMap, assertions, numAssertions, disjunctions)
    }

    /** A size not given is inferred from the declarations, starting from 0; there is one empty disjunct. */
    constructor(inputName: string, outputName: string, inputSize: Option<int>, outputSize: Option<int>)
      ensures this.inputName == inputName && this.outputName == outputName
      ensures this.inputSize == (if inputSize.Some? then inputSize.value else 0)
      ensures this.outputSize == (if outputSize.Some? then outputSize.value else 0)
      ensures this.inferInputSize == inputSize.None? && this.inferOutputSize == outputSize.None?
      ensures idMap == map[] && assertions == map[] && numAssertions == 0 && disjunctions == [map[]]
      ensures State() == Initial(inputName, outputName, inputSize, outputSize)
    {
      this.inputName := inputName;
      this.outputName := outputName;
      this.inputSize := if inputSize.Some? then inputSize.value else 0;
      this.outputSize := if outputSize.Some? then outputSize.value else 0;
      this.inferInputSize := inputSize.None?;
      this.inferOutputSize := outputSize.None?;
      idMap := map[];
      assertions := map[];
      numAssertions := 0;
      disjunctions := [map[]];
    }

    /** `transform_Identifier`. */
    method TransformIdentifier(value: string) returns (r: Result<Value>)
      modifies this
      ensures r == ValueOf(Identify(old(State()), value))
      ensures State() == StateAfter(old(State()), Identify(old(State()), value))
    {
      if Prefix(inputName) <= value {
        var index := PyInts(Split(value, '_')[1..]);
        if index.Err? {
          return Err(index.error);
        }
        return Ok(Unit([0] + index.value));
      } else if Prefix(outputName) <= value {
        var index := PyInts(Split(value, '_')[1..]);
        if index.Err? {
          return Err(index.error);
        }
        return Ok(Unit([1] + index.value));
      } else if value in Connectives {
        return Ok(Str(value));
      }
      if value !in idMap {
        idMap := idMap[value := |idMap| + 2];
      }
      return Ok(Unit([idMap[value]]));
    }

    /** `transform_Constant`. */
    method TransformConstant(value: Value) returns (r: Result<Value>)
      ensures r == ConstantForm(value)
    {
      if !value.Int? && !value.Real? {
        return Err(AssertionError(""));
      }
      var v := if value.Int? then value.i as real else value.r;
      return Ok(Dict(map[Key(0, [-1, -1]) := v]));
    }

    /** `transform_DeclareConst`. */
    method TransformDeclareConst(symbol: string, sort: string) returns (r: Result<Value>)
      modifies this
      ensures r == ValueOf(Declare(old(State()), symbol, sort))
      ensures State() == StateAfter(old(State()), Declare(old(State()), symbol, sort))
    {
      if inferInputSize && Prefix(inputName) <= symbol {
        var index := SecondPiece(symbol);
        if index.Err? {
          return Err(index.error);
        }
        var n := PyInt(index.value);
        if n.Err? {
          return Err(n.error);
        }
        inputSize := Max(inputSize, n.value + 1);
      } else if inferOutputSize && Prefix(outputName) <= symbol {
        var index := SecondPiece(symbol);
        if index.Err? {
          return Err(index.error);
        }
        var n := PyInt(index.value);
        if n.Err? {
          return Err(n.error);
        }
        outputSize := Max(outputSize, n.value + 1);
      }
      return Ok(NoneValue);
    }

    /** A non-disjunctive form joins `_assertions` past the rows recorded so far, and advances the counter. */
    method RecordForm(f: map<Key, real>)
      modifies this
      ensures State() == Record(old(State()), f)
    {
      ghost var st := State();
      var offset := numAssertions;
      var maxRow;
      assertions, maxRow := CopyShifted(assertions, f, offset);
      if |f| != 0 {
        numAssertions := numAssertions + maxRow + 1;
      }
      RecordIs(st, f, maxRow, assertions, numAssertions);
    }

    /** `transform_Assert`. */
    method TransformAssert(term: Value) returns (r: Result<Value>)
      modifies this
      ensures r == ValueOf(AssertTerm(old(State()), term))
      ensures State() == StateAfter(old(State()), AssertTerm(old(State()), term))
    {
      if term.List? {
        if |term.items| == 1 {
          if !term.items[0].Dict? {
            return Err(AttributeError(Repr(TypeName(term.items[0])) + " object has no attribute 'items'"));
          }
          RecordForm(term.items[0].entries);
        } else if |disjunctions| == 1 {
          var alternatives := Disjuncts(term.items, disjunctions[0]);
          if alternatives.Err? {
            return Err(alternatives.error);
          }
          disjunctions := alternatives.value;
        } else {
          return Err(AssertionError(""));
        }
        return Ok(term);
      }
      if term.Dict? {
        RecordForm(term.entries);
        return Ok(List([term]));
      }
      return Err(RuntimeError("unexpected term for assert"));
    }

    /**
     * `transform` of a term: `_visit_*` transforms the children, then the
     * class's handler runs. A failure leaves the fields as the handlers that
     * ran before it left them, which the functional model does not follow.
     */
    method TransformTermNode(t: Term) returns (r: Result<Value>)
      modifies this
      ensures var spec := TransformTerm(CompatHandlers(), old(State()), t);
        r == ValueOf(spec) && (spec.Ok? ==> State() == spec.value.state)
      decreases t
    {
      match t
      case Identifier(name) =>
        r := TransformIdentifier(name);
      case Constant(v) =>
        r := TransformConstant(LiteralValue(v));
      case FunctionApplication(head, terms) =>
        ApplicationStep(old(State()), head, terms);
        var applied := TransformTermNode(head);
        if applied.Err? {
          return applied;
        }
        var args := TransformTermNodes(terms);
        if args.Err? {
          return Err(args.error);
        }
        r := ApplyFunctionMethod(applied.value, args.value);
    }

    /** `[self.transform(term) for term in node.terms]`. */
    method TransformTermNodes(terms: seq<Term>) returns (r: Result<seq<Value>>)
      modifies this
      ensures var spec := TransformTerms(CompatHandlers(), old(State()), terms);
        r == ValuesOf(spec) && (spec.Ok? ==> State() == spec.value.state)
      decreases terms
    {
      var values: seq<Value> := [];
      var i := 0;
      assert terms[0..] == terms;
      ghost var whole := TransformTerms(CompatHandlers(), old(State()), terms);
      assert whole.Ok? ==> [] + whole.value.values == whole.value.values;
      while i < |terms|
        invariant i <= |terms|
        invariant TransformTerms(CompatHandlers(), old(State()), terms)
          == PrependOuts(values, TransformTerms(CompatHandlers(), State(), terms[i..]))
      {
        assert terms[i..][1..] == terms[i + 1..];
        ghost var before := State();
        ghost var rest := TransformTerms(CompatHandlers(), before, terms[i..]);
        var value := TransformTermNode(terms[i]);
        if value.Err? {
          return Err(value.error);
        }
        ghost var after := TransformTerms(CompatHandlers(), State(), terms[i + 1..]);
        assert after.Ok? ==> values + ([value.value] + after.value.values) == values + [value.value] + after.value.values;
        values := values + [value.value];
        i := i + 1;
      }
      assert values + [] == values;
      return Ok(values);
    }

    /** `transform` of a command. */
    method TransformCommandNode(c: Command) returns (r: Result<Value>)
      modifies this
      ensures var spec := TransformCommand(CompatHandlers(), old(State()), c);
        r == ValueOf(spec) && (spec.Ok? ==> State() == spec.value.state)
    {
      match c
      case DeclareConst(symbol, sort) =>
        r := TransformDeclareConst(symbol, sort);
      case Assert(term) =>
        var value := TransformTermNode(term);
        if value.Err? {
          return value;
        }
        r := TransformAssert(value.value);
    }

    /**
     * `transform` of a script: `_visit_Script` transforms the commands in
     * order, then `transform_Script` compiles the state they leave.
     */
    method TransformScriptNode(script: Script) returns (r: Result<seq<Group>>)
      modifies this
      ensures r == Compile(old(State()), script)
      ensures CompileAsWritten(old(State()), script).Ok? ==> r == CompileAsWritten(old(State()), script)
    {
      var commands := script.commands;
      var results: seq<Value> := [];
      var i := 0;
      assert commands[0..] == commands;
      while i < |commands|
        invariant i <= |commands|
        invariant VisitCommands(CompatHandlers(), Outs([], old(State())), commands)
          == VisitCommands(CompatHandlers(), Outs(results, State()), commands[i..])
      {
        VisitStep(results, State(), commands, i);
        var result := TransformCommandNode(commands[i]);
        if result.Err? {
          return Err(result.error);
        }
        ghost var kept := results + Kept(result.value);
        if result.value != Discard {
          results := results + [result.value];
        }
        assert results == kept;
        i := i + 1;
      }
      r := TransformScript();
    }

    /** `transform_Script`: the unconditional assertions in one pass, then each disjunct on top of them. */
    method TransformScript() returns (r: Result<seq<Group>>)
      ensures r == Finalise(State())
      ensures FinaliseAsWritten(State()).Ok? ==> r == FinaliseAsWritten(State())
    {
      if FinaliseAsWritten(State()).Ok? {
        FinaliseAgrees(State());
      }
      var common := ScanPass(Branch(Unbounded(inputSize), []), assertions, 0, outputSize);
      if common.Err? {
        return Err(common.error);
      }
      r := CollectGroups(common.value, disjunctions, outputSize);
    }
  }

  /** `result = lhs.copy()`, then `result[key] = result.get(key, 0) - value` for each entry of `rhs`. */
  method Subtract(lhs: map<Key, real>, rhs: map<Key, real>) returns (result: map<Key, real>)
    ensures result == Difference(lhs, rhs)
  {
    result := lhs;
    var left := rhs.Keys;
    while left != {}
      invariant left <= rhs.Keys
      invariant result.Keys == lhs.Keys + (rhs.Keys - left)
      invariant forall k | k in result :: result[k] == Coef(lhs, k) - (if k in rhs && k !in left then rhs[k] else 0.0)
      decreases left
    {
      var key :| key in left;
      result := result[key := Coef(result, key) - rhs[key]];
      left := left - {key};
    }
  }

  /** The first-argument test of `transform_FunctionApplication` for `<=` and `>=`. */
  method Compare(terms: seq<Value>, greater: bool) returns (r: Result<Value>)
    ensures r == Comparison(terms, greater)
  {
    if |terms| != 2 {
      return Err(ValueError(UnpackMessage(2, |terms|)));
    }
    var lhs, rhs := terms[0], terms[1];
    if !lhs.Dict? || !rhs.Dict? {
      return Err(AssertionError(""));
    }
    var result;
    if greater {
      result := Subtract(rhs.entries, lhs.entries);
    } else {
      result := Subtract(lhs.entries, rhs.entries);
    }
    return Ok(Dict(result));
  }

  /** A result of `ConjoinFrom` with the entries `acc` added in front. */
  function MergeInto(acc: map<Key, real>, r: Result<map<Key, real>>): Result<map<Key, real>> {
    if r.Ok? then Ok(acc + r.value) else r
  }

  /** The entries of `m` outside `left`. */
  ghost function Without(m: map<Key, real>, left: set<Key>): map<Key, real> {
    map k | k in m && k !in left :: m[k]
  }

  /** Taking one more entry out of `left`. */
  lemma WithoutStep(m: map<Key, real>, left: set<Key>, k: Key)
    requires k in left && k in m
    ensures k !in Without(m, left)
    ensures Without(m, left - {k}) == Without(m, left)[k := m[k]]
  {
  }

  /** Updating a union at a key updates its right operand. */
  lemma UnionUpdate(a: map<Key, real>, b: map<Key, real>, k: Key, v: real)
    ensures (a + b)[k := v] == a + b[k := v]
  {
  }

  /** One step of `MoveToRow`: the entry at `k` moves to row `i`. */
  lemma MoveStep(conjuncts: map<Key, real>, m: map<Key, real>, left: set<Key>, k: Key, i: int)
    requires RowZero(m) && k in left && k in m
    ensures RowZero(Without(m, left)) && RowZero(Without(m, left - {k}))
    ensures (conjuncts + AtRow(Without(m, left), i))[Key(i, k.index) := m[k]]
      == conjuncts + AtRow(Without(m, left - {k}), i)
  {
    var done := Without(m, left);
    WithoutStep(m, left, k);
    AtRowAdd(done, k, m[k], i);
    UnionUpdate(conjuncts, AtRow(done, i), Key(i, k.index), m[k]);
  }

  /** `conjuncts[(i, *index)] = value` for every entry of the row-0 form `m`. */
  method MoveToRow(conjuncts: map<Key, real>, m: map<Key, real>, i: int) returns (r: map<Key, real>)
    requires RowZero(m)
    ensures r == conjuncts + AtRow(m, i)
  {
    r := conjuncts;
    var left := m.Keys;
    assert Without(m, left) == map[];
    assert AtRow(map[], i) == map[];
    assert conjuncts + map[] == conjuncts;
    while left != {}
      invariant left <= m.Keys
      invariant RowZero(Without(m, left))
      invariant r == conjuncts + AtRow(Without(m, left), i)
      decreases left
    {
      var key :| key in left;
      MoveStep(conjuncts, m, left, key, i);
      r := r[Key(i, key.index) := m[key]];
      left := left - {key};
    }
    assert Without(m, {}) == m;
  }

  /** The loop of `transform_FunctionApplication` for `and`. */
  method Conjoin(terms: seq<Value>) returns (r: Result<map<Key, real>>)
    ensures r == ConjoinFrom(terms, 0)
  {
    var conjuncts: map<Key, real> := map[];
    var i := 0;
    MergeNothing(terms);
    while i < |terms|
      invariant i <= |terms|
      invariant ConjoinFrom(terms, 0) == MergeInto(conjuncts, ConjoinFrom(terms[i..], i))
    {
      ConjoinStep(conjuncts, terms, i);
      var term := terms[i];
      if !term.Dict? || !RowZero(term.entries) {
        return Err(AssertionError(""));
      }
      if !Triples(term.entries) {
        return Err(AssertionError("please open a bug report"));
      }
      conjuncts := MoveToRow(conjuncts, term.entries, i);
      i := i + 1;
    }
    assert conjuncts + map[] == conjuncts;
    return Ok(conjuncts);
  }

  lemma MergeNothing(terms: seq<Value>)
    ensures ConjoinFrom(terms, 0) == MergeInto(map[], ConjoinFrom(terms[0..], 0))
  {
    assert terms[0..] == terms;
    var whole := ConjoinFrom(terms, 0);
    assert whole.Ok? ==> map[] + whole.value == whole.value;
  }

  /** The arguments from the `i`-th on: the `i`-th one's conjunct, or its error, comes first. */
  lemma ConjoinStep(acc: map<Key, real>, terms: seq<Value>, i: int)
    requires 0 <= i < |terms|
    ensures var c := Conjunct(i, terms[i]);
      MergeInto(acc, ConjoinFrom(terms[i..], i))
        == if c.Err? then Err(c.error) else MergeInto(acc + c.value, ConjoinFrom(terms[i + 1..], i + 1))
  {
    assert terms[i..][1..] == terms[i + 1..];
    var c := Conjunct(i, terms[i]);
    var rest := ConjoinFrom(terms[i + 1..], i + 1);
    if c.Ok? && rest.Ok? {
      assert acc + (c.value + rest.value) == (acc + c.value) + rest.value;
    }
  }

  /** A result of `Disjoin` with the values `acc` in front. */
  function PrependValues(acc: seq<Value>, r: Result<seq<Value>>): Result<seq<Value>> {
    if r.Ok? then Ok(acc + r.value) else r
  }

  /** The loop of `transform_FunctionApplication` for `or`. */
  method DisjoinAll(terms: seq<Value>) returns (r: Result<seq<Value>>)
    ensures r == Disjoin(terms)
  {
    var result: seq<Value> := [];
    var i := 0;
    assert terms[0..] == terms;
    ghost var whole := Disjoin(terms);
    assert whole.Ok? ==> [] + whole.value == whole.value;
    while i < |terms|
      invariant i <= |terms|
      invariant Disjoin(terms) == PrependValues(result, Disjoin(terms[i..]))
    {
      assert terms[i..][1..] == terms[i + 1..];
      var term := terms[i];
      if !term.List? {
        return Err(AssertionError("please open a bug report"));
      }
      var j := 0;
      while j < |term.items|
        invariant j <= |term.items|
        invariant forall l | 0 <= l < j :: term.items[l].Dict?
      {
        if !term.items[j].Dict? {
          return Err(AssertionError("please open a bug report"));
        }
        j := j + 1;
      }
      ghost var rest := Disjoin(terms[i + 1..]);
      assert rest.Ok? ==> result + (term.items + rest.value) == result + term.items + rest.value;
      result := result + term.items;
      i := i + 1;
    }
    assert result + [] == result;
    return Ok(result);
  }

  /** `repr` of a function head, as the refusal message prints it. */
  method DescribeHead(v: Value) returns (s: string)
    ensures s == HeadRepr(v)
  {
    if v.Str? {
      return Repr(v.s);
    }
    if v.Dict? && v.entries == map[] {
      assert forall j :: v.entries != map[j := 1.0] by {
        forall j
          ensures v.entries != map[j := 1.0]
        {
          assert j in map[j := 1.0];
        }
      }
    } else if v.Dict? {
      var k :| k in v.entries;
      forall j | v.entries == map[j := 1.0]
        ensures j == k
      {
        assert k in map[j := 1.0];
      }
      if v.entries == map[k := 1.0] {
        return "{" + KeyRepr(k) + ": 1}";
      }
    }
    return "<" + TypeName(v) + ">";
  }

  /** `transform_FunctionApplication`. */
  method ApplyFunctionMethod(symbol: Value, terms: seq<Value>) returns (r: Result<Value>)
    ensures r == ApplyFunction(symbol, terms)
  {
    if symbol == Str("<=") {
      r := Compare(terms, false);
    } else if symbol == Str(">=") {
      r := Compare(terms, true);
    } else if symbol == Str("and") {
      var conjuncts := Conjoin(terms);
      if conjuncts.Err? {
        return Err(conjuncts.error);
      }
      return Ok(List([Dict(conjuncts.value)]));
    } else if symbol == Str("or") {
      var alternatives := DisjoinAll(terms);
      if alternatives.Err? {
        return Err(alternatives.error);
      }
      return Ok(List(alternatives.value));
    } else {
      var name := DescribeHead(symbol);
      return Err(NotImplementedError("Function " + name + " is not supported by the legacy parser"));
    }
  }

  /** One step of `RecordForm`: the entry at `k` is copied, shifted, and its row counts towards the maximum. */
  lemma RecordStep(assertions: map<Key, real>, f: map<Key, real>, left: set<Key>, k: Key, offset: int)
    requires k in left && k in f
    ensures (assertions + Shifted(Without(f, left), offset))[Key(k.row + offset, k.index) := f[k]]
      == assertions + Shifted(Without(f, left - {k}), offset)
    ensures Max(0, TopRow(Without(f, left - {k}))) == Max(Max(0, TopRow(Without(f, left))), k.row)
  {
    var done := Without(f, left);
    WithoutStep(f, left, k);
    ShiftedAdd(done, k, f[k], offset);
    UnionUpdate(assertions, Shifted(done, offset), Key(k.row + offset, k.index), f[k]);
    TopRowAdd(done, k, f[k]);
  }

  /** The fields `RecordForm` computes are those of `Record`. */
  lemma RecordIs(st: CompatState, m: map<Key, real>, maxRow: int, assertions: map<Key, real>, count: int)
    requires maxRow == Max(0, TopRow(m))
    requires assertions == st.assertions + Shifted(m, st.numAssertions)
    requires count == if |m| != 0 then st.numAssertions + maxRow + 1 else st.numAssertions
    ensures Record(st, m) == st.(assertions := assertions, numAssertions := count)
  {
    assert |m| == 0 <==> m == map[] by {
      if |m| == 0 {
        assert m.Keys == {};
      }
    }
    RecordUnfolded(st, m);
  }

  /**
   * The loop of `transform_Assert` that copies the entries of `f` into
   * `assertions` with their rows moved up by `offset`, and the greatest row,
   * at least 0, that it met.
   */
  method CopyShifted(assertions: map<Key, real>, f: map<Key, real>, offset: int) returns (r: map<Key, real>, maxRow: int)
    ensures r == assertions + Shifted(f, offset)
    ensures maxRow == Max(0, TopRow(f))
  {
    r := assertions;
    maxRow := 0;
    var left := f.Keys;
    assert Without(f, left) == map[];
    assert assertions + map[] == assertions;
    while left != {}
      invariant left <= f.Keys
      invariant r == assertions + Shifted(Without(f, left), offset)
      invariant maxRow == Max(0, TopRow(Without(f, left)))
      decreases left
    {
      var key :| key in left;
      RecordStep(assertions, f, left, key, offset);
      r := r[Key(key.row + offset, key.index) := f[key]];
      maxRow := Max(maxRow, key.row);
      left := left - {key};
    }
    assert Without(f, {}) == f;
  }

  /** `max(m, default=(-1,))[0]`: the greatest row of a form, -1 for the empty one. */
  method GreatestRow(m: map<Key, real>) returns (top: int)
    ensures top == TopRow(m)
  {
    top := -1;
    var first := true;
    var left := m.Keys;
    assert Without(m, left) == map[];
    while left != {}
      invariant left <= m.Keys
      invariant first <==> Without(m, left) == map[]
      invariant top == TopRow(Without(m, left))
      decreases left
    {
      var key :| key in left;
      WithoutStep(m, left, key);
      TopRowAdd(Without(m, left), key, m[key]);
      top := if first then key.row else Max(top, key.row);
      first := false;
      left := left - {key};
    }
    assert Without(m, {}) == m;
  }

  /** `disjunct[(row + row_offset, *index)] = value` for every entry of `previous`. */
  method ShiftInto(d: map<Key, real>, previous: map<Key, real>, offset: int) returns (r: map<Key, real>)
    ensures r == d + Shifted(previous, offset)
  {
    r := d;
    var left := previous.Keys;
    assert Without(previous, left) == map[];
    assert d + map[] == d;
    while left != {}
      invariant left <= previous.Keys
      invariant r == d + Shifted(Without(previous, left), offset)
      decreases left
    {
      var key :| key in left;
      WithoutStep(previous, left, key);
      ShiftedAdd(Without(previous, left), key, previous[key], offset);
      UnionUpdate(d, Shifted(Without(previous, left), offset), Key(key.row + offset, key.index), previous[key]);
      r := r[Key(key.row + offset, key.index) := previous[key]];
      left := left - {key};
    }
    assert Without(previous, {}) == previous;
  }

  /** The body of the loop over the alternatives: `previous` copied above the disjunct's greatest row. */
  method ShiftAlternative(d: map<Key, real>, previous: map<Key, real>) returns (r: map<Key, real>)
    ensures r == Alternative(d, previous)
  {
    var top := GreatestRow(d);
    var offset := top + 1;
    r := ShiftInto(d, previous, offset);
    AlternativeUnfolded(d, previous, offset);
  }

  /** A result of `Alternatives` with the disjuncts `acc` in front. */
  function PrependForms(acc: seq<map<Key, real>>, r: Result<seq<map<Key, real>>>): Result<seq<map<Key, real>>> {
    if r.Ok? then Ok(acc + r.value) else r
  }

  /** The loop of `transform_Assert` over the alternatives of a disjunction. */
  method Disjuncts(items: seq<Value>, previous: map<Key, real>) returns (r: Result<seq<map<Key, real>>>)
    ensures r == Alternatives(items, previous)
  {
    var newDisjunctions: seq<map<Key, real>> := [];
    var i := 0;
    assert items[0..] == items;
    ghost var whole := Alternatives(items, previous);
    assert whole.Ok? ==> [] + whole.value == whole.value;
    while i < |items|
      invariant i <= |items|
      invariant Alternatives(items, previous) == PrependForms(newDisjunctions, Alternatives(items[i..], previous))
    {
      AlternativesStep(newDisjunctions, items, i, previous);
      var disjunct := items[i];
      if !disjunct.Dict? {
        return Err(AttributeError(Repr(TypeName(disjunct)) + " object has no attribute 'copy'"));
      }
      var shifted := ShiftAlternative(disjunct.entries, previous);
      newDisjunctions := newDisjunctions + [shifted];
      i := i + 1;
    }
    assert newDisjunctions + [] == newDisjunctions;
    return Ok(newDisjunctions);
  }

  /** The alternatives from the `i`-th on: the `i`-th one's disjunct, or its error, comes first. */
  lemma AlternativesStep(acc: seq<map<Key, real>>, items: seq<Value>, i: int, previous: map<Key, real>)
    requires 0 <= i < |items|
    ensures !items[i].Dict? ==>
      PrependForms(acc, Alternatives(items[i..], previous))
      == Err(AttributeError(Repr(TypeName(items[i])) + " object has no attribute 'copy'"))
    ensures items[i].Dict? ==>
      PrependForms(acc, Alternatives(items[i..], previous))
      == PrependForms(acc + [Alternative(items[i].entries, previous)], Alternatives(items[i + 1..], previous))
  {
    assert items[i..][1..] == items[i + 1..];
    var rest := Alternatives(items[i + 1..], previous);
    if items[i].Dict? && rest.Ok? {
      var d := Alternative(items[i].entries, previous);
      assert acc + ([d] + rest.value) == acc + [d] + rest.value;
    }
  }

  // ---------------------------------------------------------------------
  // transform_Script

  /** The body of the loop over a sorted form: one entry, polytope rows numbered in order. */
  method ScanStep(sc: Scan, k: Key, v: real, base: nat, outputSize: int) returns (r: Result<Scan>)
    ensures r == ScanEntry(sc, k, v, base, outputSize, false)
    ensures Contiguous(sc, base) && (forall o | o in sc.outputRows :: o <= k.row)
      && ScanEntry(sc, k, v, base, outputSize, true).Ok?
      ==> r == ScanEntry(sc, k, v, base, outputSize, true)
  {
    if Contiguous(sc, base) && (forall o | o in sc.outputRows :: o <= k.row) && ScanEntry(sc, k, v, base, outputSize, true).Ok? {
      EntryAgrees(sc, k, v, base, outputSize);
    }
    if |k.index| != 2 {
      return Err(ValueError(UnpackMessage(3, |k.index| + 1)));
    }
    var row, varType, index := k.row, k.index[0], k.index[1];
    if varType > 0 && row in sc.boxRows {
      return Err(AssertionError(""));
    }
    if varType == -1 {
      return Ok(sc.(rhs := v));
    }
    if varType == 0 {
      return BoxEntry(sc, row, index, v);
    }
    if varType == 1 {
      var rows := sc.outputRows + {row};
      var p := |rows| - 1 + base;
      var polytope := sc.polytope;
      var rhs := sc.rhs;
      if |polytope| <= p {
        polytope := polytope + [PolyRow(Zeros(outputSize), rhs)];
        rhs := 0.0;
      }
      if p >= |polytope| {
        return Err(IndexError("list index out of range"));
      }
      var j := PyIndex(index, |polytope[p].coeffs|, "list assignment index out of range");
      if j.Err? {
        return Err(j.error);
      }
      polytope := polytope[p := polytope[p].(coeffs := polytope[p].coeffs[j.value := v])];
      return Ok(sc.(polytope := polytope, outputRows := rows, rhs := rhs));
    }
    return Err(RuntimeError("unexpected variable type " + IntToString(varType)));
  }

  /** One pass of `transform_Script` over the form `m`, from the box and polytope of `start`. */
  method ScanPass(start: Branch, m: map<Key, real>, base: nat, outputSize: int) returns (r: Result<Branch>)
    ensures r == ScanForm(start, m, base, outputSize, false)
    ensures |start.polytope| == base && ScanForm(start, m, base, outputSize, true).Ok?
      ==> r == ScanForm(start, m, base, outputSize, true)
  {
    if |start.polytope| == base && ScanForm(start, m, base, outputSize, true).Ok? {
      FormAgrees(start, m, base, outputSize);
    }
    var ks := SortKeys(m);
    r := ScanSorted(start, m, ks, base, outputSize);
  }

  /** The loop of one pass over the keys `ks` of `m`, in their order. */
  method ScanSorted(start: Branch, m: map<Key, real>, ks: seq<Key>, base: nat, outputSize: int) returns (r: Result<Branch>)
    requires forall j | 0 <= j < |ks| :: ks[j] in m
    ensures r == ScanKeys(start, m, ks, base, outputSize, false)
    ensures Ascending(ks) && |start.polytope| == base && ScanKeys(start, m, ks, base, outputSize, true).Ok?
      ==> r == ScanKeys(start, m, ks, base, outputSize, true)
  {
    ghost var init := Scan(start.box, start.polytope, {}, {}, 0.0);
    var sc := Scan(start.box, start.polytope, {}, {}, 0.0);
    var i := 0;
    assert ks[0..] == ks;
    while i < |ks|
      invariant i <= |ks|
      invariant ScanEntries(init, m, ks, base, outputSize, false) == ScanEntries(sc, m, ks[i..], base, outputSize, false)
    {
      var next := ScanStep(sc, ks[i], m[ks[i]], base, outputSize);
      ScanEntriesStep(sc, m, ks, i, base, outputSize, next);
      if next.Err? {
        AgreeWhereWritten(start, m, ks, base, outputSize);
        return Err(next.error);
      }
      sc := next.value;
      i := i + 1;
    }
    assert ks[i..] == [];
    AgreeWhereWritten(start, m, ks, base, outputSize);
    return Ok(Branch(sc.box, sc.polytope));
  }

  /** `KeysAgree` where its conditions hold. */
  lemma AgreeWhereWritten(start: Branch, m: map<Key, real>, ks: seq<Key>, base: nat, outputSize: int)
    ensures Ascending(ks) && |start.polytope| == base && ScanKeys(start, m, ks, base, outputSize, true).Ok?
      ==> ScanKeys(start, m, ks, base, outputSize, true) == ScanKeys(start, m, ks, base, outputSize, false)
  {
    if Ascending(ks) && |start.polytope| == base && ScanKeys(start, m, ks, base, outputSize, true).Ok? {
      KeysAgree(start, m, ks, base, outputSize);
    }
  }

  /** The entries from the `i`-th on: the `i`-th one's step, or its error, comes first. */
  lemma ScanEntriesStep(sc: Scan, m: map<Key, real>, ks: seq<Key>, i: int, base: nat, outputSize: int, next: Result<Scan>)
    requires 0 <= i < |ks| && ks[i] in m
    requires next == ScanEntry(sc, ks[i], m[ks[i]], base, outputSize, false)
    ensures ScanEntries(sc, m, ks[i..], base, outputSize, false)
      == if next.Err? then Err(next.error) else ScanEntries(next.value, m, ks[i + 1..], base, outputSize, false)
  {
    assert ks[i..][1..] == ks[i + 1..];
  }

  /** `results[str(box)]`: the first group with the disjunct's box, or a new one at the end. */
  method AddGroup(groups: seq<Group>, b: Branch) returns (r: seq<Group>)
    ensures r == AddBranch(groups, b)
  {
    var j := 0;
    while j < |groups| && groups[j].box != b.box
      invariant j <= |groups|
      invariant forall l | 0 <= l < j :: groups[l].box != b.box
    {
      j := j + 1;
    }
    AddBranchAt(groups, b, j);
    if j == |groups| {
      r := groups + [Group(b.box, [b.polytope])];
    } else {
      r := groups[j := groups[j].(polytopes := groups[j].polytopes + [b.polytope])];
    }
  }

  /** A disjunct joins the first group with its box, and only that one; without one, it opens a group at the end. */
  lemma {:induction false} AddBranchAt(groups: seq<Group>, b: Branch, j: int)
    requires 0 <= j <= |groups|
    requires forall l | 0 <= l < j :: groups[l].box != b.box
    requires j < |groups| ==> groups[j].box == b.box
    ensures AddBranch(groups, b)
      == if j == |groups| then groups + [Group(b.box, [b.polytope])]
         else groups[j := groups[j].(polytopes := groups[j].polytopes + [b.polytope])]
    decreases |groups|
  {
    if groups != [] && j > 0 {
      AddBranchAt(groups[1..], b, j - 1);
      if j == |groups| {
        assert [groups[0]] + (groups[1..] + [Group(b.box, [b.polytope])]) == groups + [Group(b.box, [b.polytope])];
      } else {
        assert [groups[0]] + groups[1..][j - 1 := groups[j].(polytopes := groups[j].polytopes + [b.polytope])]
          == groups[j := groups[j].(polytopes := groups[j].polytopes + [b.polytope])];
      }
    } else if groups != [] {
      assert [groups[0].(polytopes := groups[0].polytopes + [b.polytope])] + groups[1..]
        == groups[0 := groups[0].(polytopes := groups[0].polytopes + [b.polytope])];
    }
  }

  /** The loop over the disjuncts: each scanned on top of `common` and grouped by box. */
  method CollectGroups(common: Branch, ds: seq<map<Key, real>>, outputSize: int) returns (r: Result<seq<Group>>)
    ensures r == Collect([], common, ds, outputSize, false)
    ensures Collect([], common, ds, outputSize, true).Ok? ==> r == Collect([], common, ds, outputSize, true)
  {
    if Collect([], common, ds, outputSize, true).Ok? {
      CollectAgrees([], common, ds, outputSize);
    }
    var groups: seq<Group> := [];
    var i := 0;
    assert ds[0..] == ds;
    while i < |ds|
      invariant i <= |ds|
      invariant Collect([], common, ds, outputSize, false) == Collect(groups, common, ds[i..], outputSize, false)
    {
      assert ds[i..][1..] == ds[i + 1..];
      var b := ScanPass(common, ds[i], |common.polytope|, outputSize);
      if b.Err? {
        return Err(b.error);
      }
      groups := AddGroup(groups, b.value);
      i := i + 1;
    }
    return Ok(groups);
  }

  /** `transform` of a function application: the head, then the terms, then `transform_FunctionApplication`. */
  lemma ApplicationStep(st: CompatState, head: Term, terms: seq<Term>)
    ensures var f := TransformTerm(CompatHandlers(), st, head);
      var args := if f.Ok? then TransformTerms(CompatHandlers(), f.value.state, terms) else Ok(Outs([], st));
      TransformTerm(CompatHandlers(), st, FunctionApplication(head, terms))
        == if f.Err? then Err(f.error)
           else if args.Err? then Err(args.error)
           else Stateless(ApplyFunction(f.value.value, args.value.values), args.value.state)
  {
    var f := TransformTerm(CompatHandlers(), st, head);
    if f.Ok? {
      var args := TransformTerms(CompatHandlers(), f.value.state, terms);
      if args.Ok? {
        var applied := [f.value.value] + args.value.values;
        assert applied != [] && applied[0] == f.value.value && applied[1..] == args.value.values;
      }
    }
  }

  /** The commands from the `i`-th on: the `i`-th one's result, or its error, comes first. */
  lemma VisitStep(results: seq<Value>, st: CompatState, commands: seq<Command>, i: int)
    requires 0 <= i < |commands|
    ensures var r := TransformCommand(CompatHandlers(), st, commands[i]);
      VisitCommands(CompatHandlers(), Outs(results, st), commands[i..])
        == if r.Err? then Err(r.error)
           else VisitCommands(CompatHandlers(), Outs(results + Kept(r.value.value), r.value.state), commands[i + 1..])
  {
    assert commands[i..][1..] == commands[i + 1..];
  }
}
