/**
 * `CompatTransformer.transform_Script` (vnnlib/compat.py): the recorded forms
 * folded into an input box and output polytope rows, once for the
 * unconditional assertions and then once per disjunct on top of them, and the
 * disjuncts grouped by their box.
 *
 * Each form is walked in the sorted order of its keys `(row, var_type, index)`,
 * so a row's constant (`var_type` -1) comes before its coefficients. An input
 * coefficient of 1 or -1 tightens the upper or lower bound of that input; the
 * output coefficients of a row fill one polytope row, whose right-hand side
 * is the row's constant as stored.
 *
 * The source numbers a polytope row `row - min(output_rows)`, which skips a
 * number whenever a row without output coefficients lies between two output
 * rows; `Finalise` numbers them by rank instead, and `FinaliseAsWritten` keeps
 * the source's numbering, to show the difference.
 */
module CompatScript {
  import opened Errors
  import opened Ast
  import opened Keys
  import opened Transformer
  import opened Compat

  /** A bound of an interval: a number or an infinity. */
  datatype Bound = NegInf | Fin(v: real) | PosInf

  /** The order of the extended reals. */
  predicate AtMost(a: Bound, b: Bound) {
    a.NegInf? || b.PosInf? || (a.Fin? && b.Fin? && a.v <= b.v)
  }

  /** Python's `min(a, b)`. */
  function Lesser(a: Bound, b: Bound): (r: Bound)
    ensures AtMost(r, a) && AtMost(r, b)
    ensures r == a || r == b
  {
    if AtMost(a, b) then a else b
  }

  /** Python's `max(a, b)`. */
  function Greater(a: Bound, b: Bound): (r: Bound)
    ensures AtMost(a, r) && AtMost(b, r)
    ensures r == a || r == b
  {
    if AtMost(b, a) then a else b
  }

  /** An entry `[low, high]` of a box. */
  datatype Interval = Interval(lo: Bound, hi: Bound)

  /** A polytope row: the coefficients of the outputs and the right-hand side. */
  datatype PolyRow = PolyRow(coeffs: seq<real>, rhs: real)

  /** The locals of a pass over one form. */
  datatype Scan = Scan(box: seq<Interval>, polytope: seq<PolyRow>, boxRows: set<int>, outputRows: set<int>, rhs: real)

  /** A disjunct's box and polytope. */
  datatype Branch = Branch(box: seq<Interval>, polytope: seq<PolyRow>)

  /** An entry of the result: a box and the polytopes of every disjunct with that box. */
  datatype Group = Group(box: seq<Interval>, polytopes: seq<seq<PolyRow>>)

  /** `[[-inf, inf] for _ in range(n)]`. */
  function Unbounded(n: int): (box: seq<Interval>)
    ensures |box| == if n > 0 then n else 0
  {
    seq(if n > 0 then n else 0, _ => Interval(NegInf, PosInf))
  }

  /** `[0 for _ in range(n)]`. */
  function Zeros(n: int): (row: seq<real>)
    ensures |row| == if n > 0 then n else 0
  {
    seq(if n > 0 then n else 0, _ => 0.0)
  }

  /** Python's list index `i` into a list of length `n`: negative indices count from the end. */
  function PyIndex(i: int, n: nat, message: string): (r: Result<nat>)
    ensures r.Ok? <==> -(n as int) <= i < n
    ensures r.Ok? ==> r.value < n && (r.value == i || r.value == i + n)
    ensures r.Err? ==> r.error == IndexError(message)
  {
    if 0 <= i < n then Ok(i) else if -(n as int) <= i < 0 then Ok((i + n) as nat) else Err(IndexError(message))
  }

  /** An input coefficient: 1 bounds the input above by minus the constant, -1 below by the constant. */
  function BoxEntry(sc: Scan, row: int, index: int, v: real): Result<Scan> {
    if v == 1.0 then
      var i :- PyIndex(index, |sc.box|, "list index out of range");
      Ok(sc.(box := sc.box[i := sc.box[i].(hi := Lesser(Fin(-sc.rhs), sc.box[i].hi))],
             boxRows := sc.boxRows + {row}, rhs := 0.0))
    else if v == -1.0 then
      var i :- PyIndex(index, |sc.box|, "list index out of range");
      Ok(sc.(box := sc.box[i := sc.box[i].(lo := Greater(Fin(sc.rhs), sc.box[i].lo))],
             boxRows := sc.boxRows + {row}, rhs := 0.0))
    else Err(RuntimeError("unexpected lhs coeff for box: " + CoefText(v)))
  }

  /**
   * `str` of a coefficient in a message. The coefficients of variables are
   * differences of the `int` 1 that `transform_Identifier` writes, so a whole
   * number prints as an `int` does; any other value prints as `<float>`.
   */
  function CoefText(v: real): (s: string)
    ensures v == v.Floor as real ==> s == IntToString(v.Floor)
  {
    if v == v.Floor as real then IntToString(v.Floor) else "<float>"
  }

  /**
   * The polytope row an output row writes: `row - min(output_rows) + base` as
   * written, its rank among the output rows seen so far plus `base` as corrected.
   */
  ghost function PolytopeRow(rows: set<int>, row: int, base: nat, asWritten: bool): (p: int)
    requires row in rows
    ensures p >= base
  {
    if asWritten then row - Least(rows) + base else |rows| - 1 + base
  }

  /** An output coefficient: a new row appends a zero row holding the constant, then the coefficient is set. */
  ghost function PolytopeEntry(sc: Scan, row: int, index: int, v: real, base: nat, outputSize: int, asWritten: bool): Result<Scan> {
    var rows := sc.outputRows + {row};
    var p := PolytopeRow(rows, row, base, asWritten);
    var grows := |sc.polytope| <= p;
    var polytope := if grows then sc.polytope + [PolyRow(Zeros(outputSize), sc.rhs)] else sc.polytope;
    if p >= |polytope| then Err(IndexError("list index out of range"))
    else
      var j :- PyIndex(index, |polytope[p].coeffs|, "list assignment index out of range");
      Ok(sc.(polytope := polytope[p := polytope[p].(coeffs := polytope[p].coeffs[j := v])],
             outputRows := rows, rhs := if grows then 0.0 else sc.rhs))
  }

  /** One entry `(row, var_type, index), value` of the sorted form. */
  ghost function ScanEntry(sc: Scan, k: Key, v: real, base: nat, outputSize: int, asWritten: bool): Result<Scan> {
    if |k.index| != 2 then Err(ValueError(UnpackMessage(3, |k.index| + 1)))
    else
      var row, varType, index := k.row, k.index[0], k.index[1];
      if varType > 0 && row in sc.boxRows then Err(AssertionError(""))
      else if varType == -1 then Ok(sc.(rhs := v))
      else if varType == 0 then BoxEntry(sc, row, index, v)
      else if varType == 1 then PolytopeEntry(sc, row, index, v, base, outputSize, asWritten)
      else Err(RuntimeError("unexpected variable type " + IntToString(varType)))
  }

  /** The entries of `m` at the keys `ks`, in that order (the keys are `m`'s own, sorted). */
  ghost function ScanEntries(sc: Scan, m: map<Key, real>, ks: seq<Key>, base: nat, outputSize: int, asWritten: bool): Result<Scan>
    decreases |ks|
  {
    if ks == [] then Ok(sc)
    else
      var next :- ScanEntry(sc, ks[0], Coef(m, ks[0]), base, outputSize, asWritten);
      ScanEntries(next, m, ks[1..], base, outputSize, asWritten)
  }

  /** The entries at `ks`: the first one's step, then the rest. */
  lemma EntriesCons(sc: Scan, m: map<Key, real>, ks: seq<Key>, base: nat, outputSize: int, asWritten: bool, next: Scan)
    requires ks != [] && ScanEntry(sc, ks[0], Coef(m, ks[0]), base, outputSize, asWritten) == Ok(next)
    ensures ScanEntries(sc, m, ks, base, outputSize, asWritten) == ScanEntries(next, m, ks[1..], base, outputSize, asWritten)
  {
  }

  /** A pass over the entries of `m` at the keys `ks`, from a box and polytope, with empty row sets and constant. */
  ghost function ScanKeys(start: Branch, m: map<Key, real>, ks: seq<Key>, base: nat, outputSize: int, asWritten: bool): Result<Branch> {
    var sc :- ScanEntries(Scan(start.box, start.polytope, {}, {}, 0.0), m, ks, base, outputSize, asWritten);
    Ok(Branch(sc.box, sc.polytope))
  }

  /** A pass over the form `m` in sorted order. */
  ghost function ScanForm(start: Branch, m: map<Key, real>, base: nat, outputSize: int, asWritten: bool): Result<Branch> {
    ScanKeys(start, m, SortedKeys(m.Keys), base, outputSize, asWritten)
  }

  /** `results[str(box)]`: a disjunct joins the group of its box, or opens a new group at the end. */
  function AddBranch(groups: seq<Group>, b: Branch): seq<Group>
    decreases |groups|
  {
    if groups == [] then [Group(b.box, [b.polytope])]
    else if groups[0].box == b.box then [groups[0].(polytopes := groups[0].polytopes + [b.polytope])] + groups[1..]
    else [groups[0]] + AddBranch(groups[1..], b)
  }

  /** The loop over `_disjunctions`: each disjunct scanned on top of the common part, then grouped. */
  ghost function Collect(groups: seq<Group>, common: Branch, ds: seq<map<Key, real>>, outputSize: int, asWritten: bool): Result<seq<Group>>
    decreases |ds|
  {
    if ds == [] then Ok(groups)
    else
      var b :- ScanForm(common, ds[0], |common.polytope|, outputSize, asWritten);
      Collect(AddBranch(groups, b), common, ds[1..], outputSize, asWritten)
  }

  /** `transform_Script` with the polytope rows numbered as written or as corrected. */
  ghost function FinaliseWith(st: CompatState, asWritten: bool): Result<seq<Group>> {
    var common :- ScanForm(Branch(Unbounded(st.inputSize), []), st.assertions, 0, st.outputSize, asWritten);
    Collect([], common, st.disjunctions, st.outputSize, asWritten)
  }

  /** `transform_Script` as compat.py writes it. */
  ghost function FinaliseAsWritten(st: CompatState): Result<seq<Group>> {
    FinaliseWith(st, true)
  }

  /** `transform_Script`, polytope rows numbered in order. */
  ghost function Finalise(st: CompatState): Result<seq<Group>> {
    FinaliseWith(st, false)
  }

  /**
   * `transform` of a script: the commands visited in order, then
   * `transform_Script`, which ignores the commands' results and reads the
   * state they leave.
   */
  ghost function Compile(st: CompatState, script: Script): Result<seq<Group>> {
    var visited :- VisitCommands(CompatHandlers(), Outs([], st), script.commands);
    Finalise(visited.state)
  }

  /** `transform` of a script with `transform_Script` as compat.py writes it. */
  ghost function CompileAsWritten(st: CompatState, script: Script): Result<seq<Group>> {
    var visited :- VisitCommands(CompatHandlers(), Outs([], st), script.commands);
    FinaliseAsWritten(visited.state)
  }
}
