/**
 * The handlers of the legacy constraint compiler `CompatTransformer`
 * (vnnlib/compat.py), as functions of the transformer's state.
 *
 * Terms compile to linear forms: dictionaries from keys `(row, var_type, index)`
 * to coefficients, read as "the sum is at most 0". `var_type` is -1 for the
 * constant (index -1), 0 for the input vector and 1 for the output vector; any
 * other identifier gets a two-element key `(0, id)` with a fresh `id` from 2
 * upwards. Assertions collect these forms, shifted to rows of their own, in
 * `assertions`; a disjunction replaces `disjunctions` by its alternatives.
 */
module Compat {
  import opened Errors
  import opened Ast
  import opened Keys
  import opened Transformer

  /** The fields of a `CompatTransformer`. */
  datatype CompatState = CompatState(
    inputName: string,
    outputName: string,
    inputSize: int,
    outputSize: int,
    inferInputSize: bool,
    inferOutputSize: bool,
    idMap: map<string, int>,
    assertions: map<Key, real>,
    numAssertions: nat,
    disjunctions: seq<map<Key, real>>)

  /** `CompatTransformer(input_name, output_name, input_size, output_size)`. */
  function Initial(inputName: string, outputName: string, inputSize: Option<int>, outputSize: Option<int>): CompatState {
    CompatState(inputName, outputName,
      if inputSize.Some? then inputSize.value else 0,
      if outputSize.Some? then outputSize.value else 0,
      inputSize.None?, outputSize.None?,
      map[], map[], 0, [map[]])
  }

  // ---------------------------------------------------------------------
  // Names

  /** `str.split(sep)`: the pieces between separators, empty ones included. */
  function Split(s: string, sep: char): (parts: seq<string>)
    ensures |parts| >= 1
    ensures forall i | 0 <= i < |parts| :: sep !in parts[i]
    decreases |s|
  {
    if s == [] then [""]
    else
      var rest := Split(s[1..], sep);
      if s[0] == sep then [""] + rest
      else
        assert forall i | 1 <= i < |rest| :: ([[s[0]] + rest[0]] + rest[1..])[i] == rest[i];
        [[s[0]] + rest[0]] + rest[1..]
  }

  /** `sep.join(parts)`. */
  function Join(parts: seq<string>, sep: char): string
    decreases |parts|
  {
    if parts == [] then ""
    else if |parts| == 1 then parts[0]
    else parts[0] + [sep] + Join(parts[1..], sep)
  }

  /** `int(text)`: an optional sign and a non-empty run of decimal digits. */
  function PyInt(text: string): (r: Result<int>)
    ensures r.Err? ==> r.error == ValueError("invalid literal for int() with base 10: " + Repr(text))
  {
    var signed := text != [] && (text[0] == '-' || text[0] == '+');
    var digits := if signed then text[1..] else text;
    match IntOf(digits, Dec)
    case Ok(n) => Ok(if signed && text[0] == '-' then -n else n)
    case Err(_) => Err(ValueError("invalid literal for int() with base 10: " + Repr(text)))
  }

  /** `tuple(map(int, pieces))`: the first piece that is not an integer raises. */
  function PyInts(pieces: seq<string>): (r: Result<seq<int>>)
    ensures r.Ok? ==> |r.value| == |pieces|
    decreases |pieces|
  {
    if pieces == [] then Ok([])
    else
      var first :- PyInt(pieces[0]);
      var rest :- PyInts(pieces[1..]);
      Ok([first] + rest)
  }

  /** The message of an unpacking into `expected` names from `got` values. */
  function UnpackMessage(expected: nat, got: nat): string {
    if got < expected then "not enough values to unpack (expected " + IntToString(expected) + ", got " + IntToString(got) + ")"
    else "too many values to unpack (expected " + IntToString(expected) + ")"
  }

  /** The prefix that marks an element of the vector called `name`. */
  function Prefix(name: string): string {
    name + "_"
  }

  /** The names `transform_Identifier` passes through as strings. */
  const Connectives: set<string> := {"<=", ">=", "and", "or"}

  /** A form with the single coefficient 1 at `index` of row 0. */
  function Unit(index: seq<int>): Value {
    Dict(map[Key(0, index) := 1.0])
  }

  /** `transform_Identifier`: an element of the input or output vector, a connective, or a numbered variable. */
  function Identify(st: CompatState, value: string): Result<Out<CompatState>> {
    if Prefix(st.inputName) <= value then
      var index :- PyInts(Split(value, '_')[1..]);
      Ok(Out(Unit([0] + index), st))
    else if Prefix(st.outputName) <= value then
      var index :- PyInts(Split(value, '_')[1..]);
      Ok(Out(Unit([1] + index), st))
    else if value in Connectives then Ok(Out(Str(value), st))
    else if value in st.idMap then Ok(Out(Unit([st.idMap[value]]), st))
    else
      var id := |st.idMap| + 2;
      Ok(Out(Unit([id]), st.(idMap := st.idMap[value := id])))
  }

  /** `transform_Constant`: a number is the constant of row 0; anything else fails the type assertion. */
  function ConstantForm(value: Value): Result<Value> {
    match value
    case Int(i) => Ok(Dict(map[Key(0, [-1, -1]) := i as real]))
    case Real(r) => Ok(Dict(map[Key(0, [-1, -1]) := r]))
    case _ => Err(AssertionError(""))
  }

  /** The larger of two integers, as Python's `max` picks it. */
  function Max(a: int, b: int): int {
    if a >= b then a else b
  }

  /** `_, index = symbol.split("_")`. */
  function SecondPiece(symbol: string): Result<string> {
    var pieces := Split(symbol, '_');
    if |pieces| == 2 then Ok(pieces[1]) else Err(ValueError(UnpackMessage(2, |pieces|)))
  }

  /** `transform_DeclareConst`: a declared element of a vector whose size is inferred widens it. */
  function Declare(st: CompatState, symbol: string, sort: string): Result<Out<CompatState>> {
    if st.inferInputSize && Prefix(st.inputName) <= symbol then
      var index :- SecondPiece(symbol);
      var n :- PyInt(index);
      Ok(Out(NoneValue, st.(inputSize := Max(st.inputSize, n + 1))))
    else if st.inferOutputSize && Prefix(st.outputName) <= symbol then
      var index :- SecondPiece(symbol);
      var n :- PyInt(index);
      Ok(Out(NoneValue, st.(outputSize := Max(st.outputSize, n + 1))))
    else Ok(Out(NoneValue, st))
  }

  // ---------------------------------------------------------------------
  // Function applications

  /** `m.get(k, 0)`. */
  function Coef(m: map<Key, real>, k: Key): real {
    if k in m then m[k] else 0.0
  }

  /** The form `l - r`, over the keys of either, zero coefficients kept. */
  function Difference(l: map<Key, real>, r: map<Key, real>): map<Key, real> {
    map k | k in l.Keys + r.Keys :: Coef(l, k) - Coef(r, k)
  }

  /** `lhs, rhs = terms`. */
  function Pair(terms: seq<Value>): Result<(Value, Value)> {
    if |terms| == 2 then Ok((terms[0], terms[1])) else Err(ValueError(UnpackMessage(2, |terms|)))
  }

  /** A comparison `l <= r` as the form `l - r`: both sides must be forms. */
  function Comparison(terms: seq<Value>, greater: bool): Result<Value> {
    var (l, r) :- Pair(terms);
    if !l.Dict? || !r.Dict? then Err(AssertionError(""))
    else if greater then Ok(Dict(Difference(r.entries, l.entries)))
    else Ok(Dict(Difference(l.entries, r.entries)))
  }

  /** Whether every key of a form has row 0. */
  predicate RowZero(m: map<Key, real>) {
    forall k | k in m :: k.row == 0
  }

  /** Whether every key of a form is `(row, var_type, index)`. */
  predicate Triples(m: map<Key, real>) {
    forall k | k in m :: |k.index| == 2
  }

  /** The form `m` moved to row `i`. */
  function AtRow(m: map<Key, real>, i: int): map<Key, real>
    requires RowZero(m)
  {
    map k | k in m :: Key(i, k.index) := m[k]
  }

  /** Moving a form with one more key moves that key along. */
  lemma AtRowAdd(m: map<Key, real>, k: Key, v: real, i: int)
    requires RowZero(m) && k.row == 0
    ensures RowZero(m[k := v])
    ensures AtRow(m[k := v], i) == AtRow(m, i)[Key(i, k.index) := v]
  {
    var n := m[k := v];
    var l := AtRow(n, i);
    var r := AtRow(m, i)[Key(i, k.index) := v];
    forall j | j in l
      ensures j in r && l[j] == r[j]
    {
      var o :| o in n && j == Key(i, o.index);
      if o != k {
        assert o == Key(0, o.index);
        assert o in m;
      }
    }
    forall j | j in r
      ensures j in l
    {
      if j != Key(i, k.index) {
        var o :| o in m && j == Key(i, o.index);
        assert o in n;
      }
    }
    assert l == r;
  }

  /** The `i`-th argument of `and`: an atom of row 0 with three-element keys. */
  function Conjunct(i: int, term: Value): Result<map<Key, real>> {
    if !term.Dict? then Err(AssertionError(""))
    else if !RowZero(term.entries) then Err(AssertionError(""))
    else if !Triples(term.entries) then Err(AssertionError("please open a bug report"))
    else Ok(AtRow(term.entries, i))
  }

  /** The arguments of `and` from the `i`-th on, each moved to the row of its position. */
  function ConjoinFrom(terms: seq<Value>, i: int): Result<map<Key, real>>
    decreases |terms|
  {
    if terms == [] then Ok(map[])
    else
      var c :- Conjunct(i, terms[0]);
      var rest :- ConjoinFrom(terms[1..], i + 1);
      Ok(c + rest)
  }

  /** The arguments of `or`: lists of forms, concatenated. */
  function Disjoin(terms: seq<Value>): Result<seq<Value>>
    decreases |terms|
  {
    if terms == [] then Ok([])
    else if !terms[0].List? || exists j | 0 <= j < |terms[0].items| :: !terms[0].items[j].Dict? then
      Err(AssertionError("please open a bug report"))
    else
      var rest :- Disjoin(terms[1..]);
      Ok(terms[0].items + rest)
  }

  /** Python's name for the type of a value. */
  function TypeName(v: Value): string {
    match v
    case Str(_) => "str"
    case Int(_) => "int"
    case Real(_) => "float"
    case Tuple(_) => "tuple"
    case List(_) => "list"
    case Dict(_) => "dict"
    case NoneValue => "NoneType"
    case Discard => "_Discard"
  }

  /** The digits of `ns`, separated by commas. */
  function IntsRepr(ns: seq<int>): string
    decreases |ns|
  {
    if ns == [] then ""
    else if |ns| == 1 then IntToString(ns[0])
    else IntToString(ns[0]) + ", " + IntsRepr(ns[1..])
  }

  /** `repr` of a key tuple. */
  function KeyRepr(k: Key): string {
    "(" + IntsRepr([k.row] + k.index) + (if k.index == [] then ",)" else ")")
  }

  /**
   * `repr` of a function head: a string, or the one-entry form an identifier
   * compiles to.
   */
  ghost function HeadRepr(v: Value): string {
    if v.Str? then Repr(v.s)
    else if v.Dict? && exists k :: v.entries == map[k := 1.0] then
      var k :| v.entries == map[k := 1.0];
      "{" + KeyRepr(k) + ": 1}"
    else "<" + TypeName(v) + ">"
  }

  /** `transform_FunctionApplication`: the connectives compile, every other function is refused. */
  ghost function ApplyFunction(symbol: Value, terms: seq<Value>): Result<Value> {
    if symbol == Str("<=") then Comparison(terms, false)
    else if symbol == Str(">=") then Comparison(terms, true)
    else if symbol == Str("and") then
      var c :- ConjoinFrom(terms, 0);
      Ok(List([Dict(c)]))
    else if symbol == Str("or") then
      var d :- Disjoin(terms);
      Ok(List(d))
    else Err(NotImplementedError("Function " + HeadRepr(symbol) + " is not supported by the legacy parser"))
  }

  // ---------------------------------------------------------------------
  // Assertions

  /** The rows a form uses. */
  ghost function Rows(m: map<Key, real>): set<int> {
    set k | k in m :: k.row
  }

  /** A set of integers without elements is the empty set. */
  lemma NonEmpty(s: set<int>)
    ensures (forall y :: y !in s) ==> s == {}
  {
    if forall y :: y !in s {
      assert forall y: int :: y in s <==> y in {};
    }
  }

  lemma {:induction false} HasGreatest(s: set<int>)
    requires s != {}
    ensures exists g :: g in s && forall x | x in s :: x <= g
    decreases s
  {
    NonEmpty(s);
    var y :| y in s;
    if s != {y} {
      HasGreatest(s - {y});
      var g :| g in s - {y} && forall x | x in s - {y} :: x <= g;
      var top := if g < y then y else g;
      forall x | x in s
        ensures x <= top
      {
        if x != y {
          assert x in s - {y};
        }
      }
    } else {
      assert forall x | x in s :: x <= y;
    }
  }

  lemma {:induction false} HasLeast(s: set<int>)
    requires s != {}
    ensures exists l :: l in s && forall x | x in s :: l <= x
    decreases s
  {
    NonEmpty(s);
    var y :| y in s;
    if s != {y} {
      HasLeast(s - {y});
      var l :| l in s - {y} && forall x | x in s - {y} :: l <= x;
      var bottom := if y < l then y else l;
      forall x | x in s
        ensures bottom <= x
      {
        if x != y {
          assert x in s - {y};
        }
      }
    } else {
      assert forall x | x in s :: y <= x;
    }
  }

  /** `max` of a set of integers. */
  ghost function Greatest(s: set<int>): (g: int)
    requires s != {}
    ensures g in s && forall x | x in s :: x <= g
  {
    HasGreatest(s);
    var g :| g in s && forall x | x in s :: x <= g;
    g
  }

  /** `min` of a set of integers. */
  ghost function Least(s: set<int>): (l: int)
    requires s != {}
    ensures l in s && forall x | x in s :: l <= x
  {
    HasLeast(s);
    var l :| l in s && forall x | x in s :: l <= x;
    l
  }

  /** `max(m, default=(-1,))[0]`: the greatest row of a form, -1 for the empty one. */
  ghost function TopRow(m: map<Key, real>): int {
    if m == map[] then -1
    else
      assert m.Keys != {} by {
        var k :| k in m;
      }
      var k :| k in m;
      assert k.row in Rows(m);
      Greatest(Rows(m))
  }

  /** The form `m` with every row moved up by `offset`. */
  function Shifted(m: map<Key, real>, offset: int): map<Key, real> {
    map k | k in m :: Key(k.row + offset, k.index) := m[k]
  }

  /** Adding a key to a form raises its greatest row to that key's row at least. */
  lemma TopRowAdd(m: map<Key, real>, k: Key, v: real)
    requires k !in m
    ensures TopRow(m[k := v]) == if m == map[] then k.row else Max(TopRow(m), k.row)
  {
    var n := m[k := v];
    assert k.row in Rows(n);
    if m != map[] {
      var j :| j in m;
      assert j.row in Rows(m);
      assert Rows(n) == Rows(m) + {k.row};
      var g := Greatest(Rows(m));
      assert Max(g, k.row) in Rows(n);
    } else {
      assert Rows(n) == {k.row};
    }
  }

  /** Shifting a form with one more key shifts that key along. */
  lemma ShiftedAdd(m: map<Key, real>, k: Key, v: real, offset: int)
    ensures Shifted(m[k := v], offset) == Shifted(m, offset)[Key(k.row + offset, k.index) := v]
  {
  }

  /** How far a recorded form advances the row counter: past its greatest row, at least one row. */
  ghost function Advance(m: map<Key, real>): nat {
    if m == map[] then 0 else Max(0, TopRow(m)) + 1
  }

  /** A non-disjunctive assertion: its rows join `assertions` after those recorded before. */
  ghost function Record(st: CompatState, m: map<Key, real>): CompatState {
    st.(assertions := st.assertions + Shifted(m, st.numAssertions),
        numAssertions := st.numAssertions + Advance(m))
  }

  /** `Record` written out, so that maps are equated without unfolding it in a larger context. */
  lemma RecordUnfolded(st: CompatState, m: map<Key, real>)
    ensures Record(st, m).assertions == st.assertions + Shifted(m, st.numAssertions)
    ensures Record(st, m).disjunctions == st.disjunctions
  {
  }

  /** Each alternative, followed by the rows of the previous disjunct shifted past its own. */
  ghost function Alternatives(items: seq<Value>, previous: map<Key, real>): Result<seq<map<Key, real>>>
    decreases |items|
  {
    if items == [] then Ok([])
    else if !items[0].Dict? then Err(AttributeError(Repr(TypeName(items[0])) + " object has no attribute 'copy'"))
    else
      var rest :- Alternatives(items[1..], previous);
      Ok([Alternative(items[0].entries, previous)] + rest)
  }

  /** One alternative: its own entries, and the previous disjunct's moved above its greatest row. */
  ghost function Alternative(d: map<Key, real>, previous: map<Key, real>): map<Key, real> {
    d + Shifted(previous, TopRow(d) + 1)
  }

  /** `Alternative` written out, so that maps are equated without unfolding it in a larger context. */
  lemma AlternativeUnfolded(d: map<Key, real>, previous: map<Key, real>, offset: int)
    requires offset == TopRow(d) + 1
    ensures Alternative(d, previous) == d + Shifted(previous, offset)
  {
  }

  /** `transform_Assert`. */
  ghost function AssertTerm(st: CompatState, term: Value): Result<Out<CompatState>> {
    match term
    case List(items) =>
      if |items| == 1 then
        if !items[0].Dict? then Err(AttributeError(Repr(TypeName(items[0])) + " object has no attribute 'items'"))
        else Ok(Out(term, Record(st, items[0].entries)))
      else if |st.disjunctions| == 1 then
        var alternatives :- Alternatives(items, st.disjunctions[0]);
        Ok(Out(term, st.(disjunctions := alternatives)))
      else Err(AssertionError(""))
    case Dict(m) => Ok(Out(List([term]), Record(st, m)))
    case _ => Err(RuntimeError("unexpected term for assert"))
  }

  // ---------------------------------------------------------------------
  // The handler table

  /** The message Python gives a handler called with the wrong arguments. */
  function WrongArguments(handler: string): Error {
    TypeError(handler + "() got unexpected arguments")
  }

  /** A handler's result, the state unchanged. */
  function Stateless(r: Result<Value>, st: CompatState): Result<Out<CompatState>> {
    var v :- r;
    Ok(Out(v, st))
  }

  ghost function CompatHandler(c: NodeClass): Option<Handler<CompatState>> {
    match c
    case IdentifierClass =>
      Some((st: CompatState, args: seq<Value>) =>
        if |args| == 1 && args[0].Str? then Identify(st, args[0].s) else Err(WrongArguments("transform_Identifier")))
    case ConstantClass =>
      Some((st: CompatState, args: seq<Value>) =>
        if |args| == 1 then Stateless(ConstantForm(args[0]), st) else Err(WrongArguments("transform_Constant")))
    case FunctionApplicationClass =>
      Some((st: CompatState, args: seq<Value>) =>
        if args != [] then Stateless(ApplyFunction(args[0], args[1..]), st) else Err(WrongArguments("transform_FunctionApplication")))
    case DeclareConstClass =>
      Some((st: CompatState, args: seq<Value>) =>
        if |args| == 2 && args[0].Str? && args[1].Str? then Declare(st, args[0].s, args[1].s)
        else Err(WrongArguments("transform_DeclareConst")))
    case AssertClass =>
      Some((st: CompatState, args: seq<Value>) =>
        if |args| == 1 then AssertTerm(st, args[0]) else Err(WrongArguments("transform_Assert")))
    case ScriptClass => None
  }

  /**
   * The `transform_*` methods of `CompatTransformer` but `transform_Script`,
   * which ignores its arguments and reads the state instead; the classes it
   * does not define fall back to parser.py's tuple.
   */
  ghost function CompatHandlers(): Handlers<CompatState> {
    Handlers(CompatHandler, PackTuple)
  }
}
