/**
 * The AST fold `AstNodeTransformer` (vnnlib/transformer.py, and the copy in
 * vnnlib/parser.py that the constraint compiler inherits). `transform` visits
 * a node, which transforms its children first, left to right, into an
 * argument list; the node class's `transform_*` handler then receives those
 * arguments, and a class without a handler yields the arguments themselves.
 *
 * Python's dynamic values become `Value`. A handler may change the
 * transformer's fields, so a handler takes a state and returns its result
 * together with the new state; the traversal threads that state through
 * the tree in visiting order.
 */
module Transformer {
  import opened Errors
  import opened Ast
  import opened Keys

  /** The Python values the fold passes around. */
  datatype Value =
    | Str(s: string)
    | Int(i: int)
    | Real(r: real)
    | Tuple(items: seq<Value>)
    | List(items: seq<Value>)
    /** A dictionary from integer tuples to numbers: a linear form of the constraint compiler. */
    | Dict(entries: map<Key, real>)
    | NoneValue
    /** The marker a command handler returns to be left out of the script's results. */
    | Discard

  datatype NodeClass = ScriptClass | DeclareConstClass | AssertClass | FunctionApplicationClass | ConstantClass | IdentifierClass

  /** A handler's result and the transformer's state after it. */
  datatype Out<S> = Out(value: Value, state: S)

  /** Several results, in order, and the state after the last. */
  datatype Outs<S> = Outs(values: seq<Value>, state: S)

  type Handler<!S> = (S, seq<Value>) -> Result<Out<S>>

  /**
   * What a class without a handler yields: parser.py packs the arguments
   * into a tuple (`_identity_args`), transformer.py returns the visit's
   * result as it is, which is a list for a script and a tuple otherwise.
   */
  datatype Fallback = PackTuple | AsVisited

  /** The `transform_*` methods a transformer defines, by node class. */
  datatype Handlers<!S> = Handlers(handler: NodeClass -> Option<Handler<S>>, fallback: Fallback)

  /** The value a Python literal has. */
  function LiteralValue(l: Literal): Value {
    match l
    case IntLit(i) => Int(i)
    case RealLit(r) => Real(r)
    case StrLit(s) => Str(s)
  }

  /** What a class without a handler yields for the visit's arguments. */
  function Unhandled(fallback: Fallback, c: NodeClass, args: seq<Value>): Value {
    if fallback == AsVisited && c == ScriptClass then List(args) else Tuple(args)
  }

  /** The second half of `transform`: the class's handler on the arguments, or the fallback. */
  function Apply<S>(h: Handlers<S>, c: NodeClass, s: S, args: seq<Value>): Result<Out<S>> {
    match h.handler(c)
    case Some(f) => f(s, args)
    case None => Ok(Out(Unhandled(h.fallback, c, args), s))
  }

  /** `transform` of a term. */
  function TransformTerm<S>(h: Handlers<S>, s: S, t: Term): Result<Out<S>>
    decreases t
  {
    match t
    case Identifier(name) => Apply(h, IdentifierClass, s, [Str(name)])
    case Constant(v) => Apply(h, ConstantClass, s, [LiteralValue(v)])
    case FunctionApplication(head, terms) =>
      var f :- TransformTerm(h, s, head);
      var args :- TransformTerms(h, f.state, terms);
      Apply(h, FunctionApplicationClass, args.state, [f.value] + args.values)
  }

  /** The terms transformed left to right. */
  function TransformTerms<S>(h: Handlers<S>, s: S, ts: seq<Term>): Result<Outs<S>>
    decreases ts
  {
    if ts == [] then Ok(Outs([], s))
    else
      var first :- TransformTerm(h, s, ts[0]);
      var rest :- TransformTerms(h, first.state, ts[1..]);
      Ok(Outs([first.value] + rest.values, rest.state))
  }

  /** `transform` of a command. */
  function TransformCommand<S>(h: Handlers<S>, s: S, c: Command): Result<Out<S>> {
    match c
    case DeclareConst(symbol, sort) => Apply(h, DeclareConstClass, s, [Str(symbol), Str(sort)])
    case Assert(term) =>
      var r :- TransformTerm(h, s, term);
      Apply(h, AssertClass, r.state, [r.value])
  }

  /** The results `done` of the commands visited so far, followed by those of the commands `cs`. */
  function VisitCommands<S>(h: Handlers<S>, done: Outs<S>, cs: seq<Command>): Result<Outs<S>>
    decreases |cs|
  {
    if cs == [] then Ok(done)
    else
      var r :- TransformCommand(h, done.state, cs[0]);
      VisitCommands(h, Outs(done.values + Kept(r.value), r.state), cs[1..])
  }

  /** A command's result as the script's visit keeps it: `Discard` is left out. */
  function Kept(v: Value): seq<Value> {
    if v == Discard then [] else [v]
  }

  /** `transform` of a script: the kept results are the arguments. */
  function TransformScript<S>(h: Handlers<S>, s: S, script: Script): Result<Out<S>> {
    var results :- VisitCommands(h, Outs([], s), script.commands);
    Apply(h, ScriptClass, results.state, results.values)
  }

  /** `_visit_Script`: the loop over the commands, `Discard` left out. */
  method VisitScript<S>(h: Handlers<S>, s: S, script: Script) returns (r: Result<Outs<S>>)
    ensures r == VisitCommands(h, Outs([], s), script.commands)
  {
    var results: seq<Value> := [];
    var state := s;
    var i := 0;
    while i < |script.commands|
      invariant i <= |script.commands|
      invariant VisitCommands(h, Outs([], s), script.commands)
        == VisitCommands(h, Outs(results, state), script.commands[i..])
    {
      assert script.commands[i..][1..] == script.commands[i + 1..];
      var result := TransformCommand(h, state, script.commands[i]);
      if result.Err? {
        return Err(result.error);
      }
      ghost var kept := results + Kept(result.value.value);
      if result.value.value != Discard {
        results := results + [result.value.value];
      }
      assert results == kept;
      state := result.value.state;
      i := i + 1;
    }
    return Ok(Outs(results, state));
  }
}
