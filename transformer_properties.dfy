/**
 * The order in which the fold visits a tree and what each handler receives,
 * stated against reference definitions: a transformer whose handlers record
 * the class of each node they see, and a transformer without handlers.
 */
module TransformerProperties {
  import opened Errors
  import opened Ast
  import opened Transformer

  /** Children before their parent, the head of an application before its arguments, left to right. */
  function PostOrder(t: Term): seq<NodeClass>
    decreases t
  {
    match t
    case Identifier(_) => [IdentifierClass]
    case Constant(_) => [ConstantClass]
    case FunctionApplication(head, terms) => PostOrder(head) + PostOrders(terms) + [FunctionApplicationClass]
  }

  function PostOrders(ts: seq<Term>): seq<NodeClass>
    decreases ts
  {
    if ts == [] then [] else PostOrder(ts[0]) + PostOrders(ts[1..])
  }

  function CommandOrder(c: Command): seq<NodeClass> {
    match c
    case DeclareConst(_, _) => [DeclareConstClass]
    case Assert(term) => PostOrder(term) + [AssertClass]
  }

  function CommandsOrder(cs: seq<Command>): seq<NodeClass>
    decreases |cs|
  {
    if cs == [] then [] else CommandOrder(cs[0]) + CommandsOrder(cs[1..])
  }

  /**
   * The visit's arguments, nested: a leaf's raw field, an application's
   * head and then its arguments, an assertion's single term.
   */
  function Echo(t: Term): Value
    decreases t
  {
    match t
    case Identifier(name) => Tuple([Str(name)])
    case Constant(v) => Tuple([LiteralValue(v)])
    case FunctionApplication(head, terms) => Tuple([Echo(head)] + Echoes(terms))
  }

  function Echoes(ts: seq<Term>): seq<Value>
    decreases ts
  {
    if ts == [] then [] else [Echo(ts[0])] + Echoes(ts[1..])
  }

  function EchoCommand(c: Command): Value {
    match c
    case DeclareConst(symbol, sort) => Tuple([Str(symbol), Str(sort)])
    case Assert(term) => Tuple([Echo(term)])
  }

  function EchoCommands(cs: seq<Command>): seq<Value>
    decreases |cs|
  {
    if cs == [] then [] else [EchoCommand(cs[0])] + EchoCommands(cs[1..])
  }

  /** A transformer whose every handler packs its arguments and logs its node class. */
  function Tracer(): Handlers<seq<NodeClass>> {
    Handlers(c => Some((log: seq<NodeClass>, args: seq<Value>) => Ok(Out(Tuple(args), log + [c]))), PackTuple)
  }

  /** A transformer without handlers. */
  function Bare<S>(fallback: Fallback): Handlers<S> {
    Handlers(c => None, fallback)
  }

  /**
   * Handlers run in post-order, each on the arguments its visit built:
   * the transformed head first, then the transformed arguments left to right.
   */
  lemma {:induction false} TraceIsPostOrder(log: seq<NodeClass>, t: Term)
    ensures TransformTerm(Tracer(), log, t) == Ok(Out(Echo(t), log + PostOrder(t)))
    decreases t
  {
    match t
    case Identifier(_) =>
    case Constant(_) =>
    case FunctionApplication(head, terms) =>
      TraceIsPostOrder(log, head);
      TraceTermsArePostOrder(log + PostOrder(head), terms);
      assert log + PostOrder(head) + PostOrders(terms) + [FunctionApplicationClass] == log + PostOrder(t);
  }

  lemma {:induction false} TraceTermsArePostOrder(log: seq<NodeClass>, ts: seq<Term>)
    ensures TransformTerms(Tracer(), log, ts) == Ok(Outs(Echoes(ts), log + PostOrders(ts)))
    decreases ts
  {
    if ts != [] {
      TraceIsPostOrder(log, ts[0]);
      TraceTermsArePostOrder(log + PostOrder(ts[0]), ts[1..]);
      assert log + PostOrder(ts[0]) + PostOrders(ts[1..]) == log + PostOrders(ts);
    } else {
      assert log + [] == log;
    }
  }

  /** An assertion's handler runs after its term's, on that one transformed term. */
  lemma TraceCommand(log: seq<NodeClass>, c: Command)
    ensures TransformCommand(Tracer(), log, c) == Ok(Out(EchoCommand(c), log + CommandOrder(c)))
  {
    if c.Assert? {
      TraceIsPostOrder(log, c.term);
      assert log + PostOrder(c.term) + [AssertClass] == log + CommandOrder(c);
    }
  }

  /** One step of the visit of the commands: the first command's result, then the others. */
  lemma VisitStep<S>(h: Handlers<S>, done: Outs<S>, cs: seq<Command>, r: Out<S>)
    requires cs != [] && TransformCommand(h, done.state, cs[0]) == Ok(r)
    ensures VisitCommands(h, done, cs) == VisitCommands(h, Outs(done.values + Kept(r.value), r.state), cs[1..])
  {
  }

  /** The results and the log of the first command, then those of the others. */
  lemma TraceRegrouped(done: seq<Value>, log: seq<NodeClass>, cs: seq<Command>)
    requires cs != []
    ensures done + [EchoCommand(cs[0])] + EchoCommands(cs[1..]) == done + EchoCommands(cs)
    ensures log + CommandOrder(cs[0]) + CommandsOrder(cs[1..]) == log + CommandsOrder(cs)
  {
    var values, order := EchoCommands(cs[1..]), CommandsOrder(cs[1..]);
    assert EchoCommands(cs) == [EchoCommand(cs[0])] + values;
    assert CommandsOrder(cs) == CommandOrder(cs[0]) + order;
    AppendRegrouped(done, [EchoCommand(cs[0])], values);
    AppendRegrouped(log, CommandOrder(cs[0]), order);
  }

  /** Concatenation regrouped. */
  lemma AppendRegrouped<T>(a: seq<T>, b: seq<T>, c: seq<T>)
    ensures a + b + c == a + (b + c)
  {
  }

  lemma {:induction false} TraceCommands(done: seq<Value>, log: seq<NodeClass>, cs: seq<Command>)
    ensures VisitCommands(Tracer(), Outs(done, log), cs) == Ok(Outs(done + EchoCommands(cs), log + CommandsOrder(cs)))
    decreases |cs|
  {
    if cs != [] {
      var c := cs[0];
      TraceCommand(log, c);
      var r := Out(EchoCommand(c), log + CommandOrder(c));
      VisitStep(Tracer(), Outs(done, log), cs, r);
      assert Kept(r.value) == [EchoCommand(c)];
      TraceCommands(done + [EchoCommand(c)], log + CommandOrder(c), cs[1..]);
      TraceRegrouped(done, log, cs);
    } else {
      assert done + [] == done && log + [] == log;
    }
  }

  /** The script's handler runs last, on every command's result in command order. */
  lemma TraceScript(log: seq<NodeClass>, script: Script)
    ensures TransformScript(Tracer(), log, script)
      == Ok(Out(Tuple(EchoCommands(script.commands)), log + CommandsOrder(script.commands) + [ScriptClass]))
  {
    TraceCommands([], log, script.commands);
    assert [] + EchoCommands(script.commands) == EchoCommands(script.commands);
  }

  /** Terms meet no handler. */
  predicate NoTermHandlers<S>(h: Handlers<S>) {
    h.handler(IdentifierClass).None? && h.handler(ConstantClass).None? && h.handler(FunctionApplicationClass).None?
  }

  /** Without term handlers a term yields its visit's arguments, nested, and the state is untouched. */
  lemma {:induction false} BareTerm<S>(h: Handlers<S>, s: S, t: Term)
    requires NoTermHandlers(h)
    ensures TransformTerm(h, s, t) == Ok(Out(Echo(t), s))
    decreases t
  {
    match t
    case Identifier(_) =>
    case Constant(_) =>
    case FunctionApplication(head, terms) =>
      BareTerm(h, s, head);
      BareTerms(h, s, terms);
  }

  lemma {:induction false} BareTerms<S>(h: Handlers<S>, s: S, ts: seq<Term>)
    requires NoTermHandlers(h)
    ensures TransformTerms(h, s, ts) == Ok(Outs(Echoes(ts), s))
    decreases ts
  {
    if ts != [] {
      BareTerm(h, s, ts[0]);
      BareTerms(h, s, ts[1..]);
    }
  }

  lemma {:induction false} BareCommands<S>(fallback: Fallback, done: seq<Value>, s: S, cs: seq<Command>)
    ensures VisitCommands(Bare(fallback), Outs(done, s), cs) == Ok(Outs(done + EchoCommands(cs), s))
    decreases |cs|
  {
    if cs != [] {
      if cs[0].Assert? {
        BareTerm(Bare(fallback), s, cs[0].term);
      }
      BareCommands(fallback, done + [EchoCommand(cs[0])], s, cs[1..]);
      assert done + [EchoCommand(cs[0])] + EchoCommands(cs[1..]) == done + EchoCommands(cs);
    } else {
      assert done + [] == done;
    }
  }

  /**
   * Without handlers a script yields its commands' argument tuples: packed
   * into a tuple by parser.py's fold, as the visit's list by transformer.py's.
   */
  lemma BareScript<S>(s: S, script: Script)
    ensures TransformScript(Bare(PackTuple), s, script) == Ok(Out(Tuple(EchoCommands(script.commands)), s))
    ensures TransformScript(Bare(AsVisited), s, script) == Ok(Out(List(EchoCommands(script.commands)), s))
  {
    BareCommands(PackTuple, [], s, script.commands);
    BareCommands(AsVisited, [], s, script.commands);
    assert [] + EchoCommands(script.commands) == EchoCommands(script.commands);
  }

  // ---------------------------------------------------------------------
  // Discard

  /** A transformer that keeps declarations by name and discards assertions. */
  function Declarations(): Handlers<()> {
    Handlers(KeepDeclarations, AsVisited)
  }

  function KeepDeclarations(c: NodeClass): Option<Handler<()>> {
    match c
    case DeclareConstClass => Some((u: (), args: seq<Value>) => Ok(Out(if args == [] then NoneValue else args[0], u)))
    case AssertClass => Some((u: (), args: seq<Value>) => Ok(Out(Discard, u)))
    case _ => None
  }

  /** The declared names, in order. */
  function DeclaredNames(cs: seq<Command>): seq<Value>
    decreases |cs|
  {
    if cs == [] then []
    else (if cs[0].DeclareConst? then [Str(cs[0].symbol)] else []) + DeclaredNames(cs[1..])
  }

  lemma {:induction false} DeclarationsKept(done: seq<Value>, cs: seq<Command>)
    ensures VisitCommands(Declarations(), Outs(done, ()), cs) == Ok(Outs(done + DeclaredNames(cs), ()))
    decreases |cs|
  {
    if cs != [] {
      var c := cs[0];
      var r := Out(if c.DeclareConst? then Str(c.symbol) else Discard, ());
      DeclarationStep(c);
      VisitStep(Declarations(), Outs(done, ()), cs, r);
      var kept := if c.DeclareConst? then [Str(c.symbol)] else [];
      assert Kept(r.value) == kept;
      DeclarationsKept(done + kept, cs[1..]);
      var rest := DeclaredNames(cs[1..]);
      assert DeclaredNames(cs) == kept + rest;
      AppendRegrouped(done, kept, rest);
    } else {
      assert done + [] == done;
    }
  }

  /** A declaration yields its name, an assertion `Discard`. */
  lemma DeclarationStep(c: Command)
    ensures TransformCommand(Declarations(), (), c) == Ok(Out(if c.DeclareConst? then Str(c.symbol) else Discard, ()))
  {
    if c.Assert? {
      BareTerm(Declarations(), (), c.term);
    }
  }

  /** Results identical to `Discard` are left out; the others keep the order of their commands. */
  lemma DiscardLeftOut(script: Script)
    ensures TransformScript(Declarations(), (), script) == Ok(Out(List(DeclaredNames(script.commands)), ()))
  {
    DeclarationsKept([], script.commands);
    assert [] + DeclaredNames(script.commands) == DeclaredNames(script.commands);
  }
}
