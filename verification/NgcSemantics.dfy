/** What the evaluator does, as functions on its state (src/Evaluator.cpp,
    src/include/memory/Memory.h). Exceptions are results; a scope's destructor
    is a function applied on every way out. */
module NgcSemantics {
  import opened Text
  import opened Doubles
  import opened NgcSyntax

  const ADDR_STACK := 0x8000_0000
  const ADDRESS_LIMIT := 0x1_0000_0000

  datatype ErrorKind =
    | NotAnAddress | InvalidDataAddress | InvalidStackAddress | NotReadable | NotWritable
    | RedeclaredGlobal | RedeclaredLocal | RedeclaredSub
    | UndefinedSub | ParameterMismatch | UndeclaredVariable | BadAssignment | BadAddressOf | NotReal
    | Interrupted     // the interrupt hook stopped the run
    | HostFailure     // a callback threw

  /** A C++ exception, or the end of the process because a scope's destructor
      popped an empty stack. */
  datatype Exception = Thrown(kind: ErrorKind) | Terminated

  datatype Cell = Cell(value: Number, readable: bool, writable: bool)

  /** Messages to the embedding application. */
  datatype Message =
    | Interrupt
    | Synchronize
    | Print(items: seq<Expr>, alert: bool)
    | Words(letters: seq<char>, values: seq<Number>)
    | Returned(value: Option<Number>)   // to the callback that made a call; None when the call threw

  /** A subroutine the callback of a block calls before it returns. */
  datatype Routine = Routine(callee: string, args: seq<Number>)

  datatype Response = Response(throws: bool, data: seq<Cell>, routine: Option<Routine>)

  /** The world outside: callbacks may throw, may rewrite data cells and, on a
      block, may call back into the evaluator; the arithmetic of doubles is
      whatever it is. */
  datatype Host = Host(
    respond: (nat, Message, seq<Cell>) -> Response,
    compute: (Operator, Number, Number) -> Number,
    negate: Number -> Number)

  type Frame = map<string, nat>
  type SubFrame = map<Signature, Sub>

  /** `budget` counts the statements the interrupt hook still allows. */
  datatype State = State(
    scope: seq<Frame>, subScope: seq<SubFrame>, data: seq<Cell>, stack: seq<Number>, clock: nat, budget: nat)

  datatype Action = NONE | RETURN | BREAK | CONTINUE

  /** A visitor context; `live` (opened) and `global` belong to its Scope. */
  datatype Context = Context(live: bool, global: bool, action: Action, result: Number)

  const LOCAL := Context(false, false, NONE, Finite(0.0))
  const GLOBAL := Context(false, true, NONE, Finite(0.0))

  /** Where a visit leaves the context and the state, and what it threw. */
  datatype Reply = Reply(ctx: Context, st: State, exc: Option<Exception>)

  function Fail(ctx: Context, st: State, e: ErrorKind): Reply { Reply(ctx, st, Some(Thrown(e))) }

  // ----- memory

  function ToAddress(value: Number): Result<nat, ErrorKind> {
    if value.Finite? && 0.0 <= value.r <= (ADDRESS_LIMIT - 1) as real && value.r.Floor as real == value.r
    then Ok(value.r.Floor) else Err(NotAnAddress)
  }

  function ReadCell(st: State, address: nat): Result<Number, ErrorKind> {
    if address == 0 then Err(InvalidDataAddress)
    else if address >= ADDR_STACK then
      if address - ADDR_STACK < |st.stack| then Ok(st.stack[address - ADDR_STACK]) else Err(InvalidStackAddress)
    else if address >= |st.data| then Err(InvalidDataAddress)
    else if !st.data[address].readable then Err(NotReadable)
    else Ok(st.data[address].value)
  }

  function WriteCell(st: State, address: nat, value: Number): Result<State, ErrorKind> {
    if address == 0 then Err(InvalidDataAddress)
    else if address >= ADDR_STACK then
      if address - ADDR_STACK < |st.stack| then Ok(st.(stack := st.stack[address - ADDR_STACK := value]))
      else Err(InvalidStackAddress)
    else if address >= |st.data| then Err(InvalidDataAddress)
    else if !st.data[address].writable then Err(NotWritable)
    else Ok(st.(data := st.data[address := st.data[address].(value := value)]))
  }

  /** The address `push` returns for the cell at index `cell` of the stack. */
  function StackAddress(cell: nat): nat { ADDR_STACK + cell % ADDR_STACK }

  // ----- what every visit keeps, alias statements or not

  function Depth(ctx: Context, st: State): int { |st.scope| - (if ctx.live then 1 else 0) }

  /** Variable and subroutine scopes are stacked alike; a live context owns a scope above the global one. */
  ghost predicate Nested(ctx: Context, st: State) { |st.scope| == |st.subScope| && Depth(ctx, st) >= 1 }

  ghost predicate KeepsDepth(ctx: Context, st: State, r: Reply) {
    && r.st.budget <= st.budget
    && (r.exc != Some(Terminated) ==>
          && Nested(r.ctx, r.st)
          && r.ctx.global == ctx.global
          && (ctx.live ==> r.ctx.live)
          && (ctx.global ==> r.ctx.live == ctx.live)
          && Depth(r.ctx, r.st) == Depth(ctx, st))
  }

  /** Expressions change nothing of their context but the result. */
  ghost predicate KeepsContext(ctx: Context, r: Reply) { r.ctx == ctx.(result := r.ctx.result) }

  // ----- scopes

  function Open(st: State): State {
    st.(scope := st.scope + [map[]], subScope := st.subScope + [map[]])
  }

  function Last<T>(s: seq<T>): T
    requires s != []
  {
    s[|s| - 1]
  }

  function Declared(st: State, name: string, address: nat): State
    requires st.scope != []
  {
    st.(scope := st.scope[..|st.scope| - 1] + [Last(st.scope)[name := address]])
  }

  /** Scope::allocate */
  function Allocate(ctx: Context, st: State, name: string, value: Number): (r: Reply)
    requires Nested(ctx, st)
    ensures KeepsDepth(ctx, st, r) && r.st.budget == st.budget
    ensures r.ctx == ctx.(live := ctx.live || !ctx.global)
    ensures r.exc != Some(Terminated)
  {
    var ctx' := if !ctx.global then ctx.(live := true) else ctx;
    var st' := if !ctx.global && !ctx.live then Open(st) else st;
    if |st'.scope| == 1 then
      if name in st'.scope[0] then Fail(ctx', st', RedeclaredGlobal)
      else Reply(ctx', Declared(st', name, |st'.data|).(data := st'.data + [Cell(value, true, true)]), None)
    else
      if name in Last(st'.scope) then Fail(ctx', st', RedeclaredLocal)
      else Reply(ctx', Declared(st', name, StackAddress(|st'.stack|)).(stack := st'.stack + [value]), None)
  }

  /** ~Scope: one pop per entry of the innermost scope, then both scopes go;
      None when the stack runs out. */
  function Close(ctx: Context, st: State): Option<State>
    requires st.scope != [] && st.subScope != []
  {
    if !ctx.live then Some(st)
    else if |Last(st.scope)| > |st.stack| then None
    else Some(st.(stack := st.stack[..|st.stack| - |Last(st.scope)|],
                scope := st.scope[..|st.scope| - 1],
                subScope := st.subScope[..|st.subScope| - 1]))
  }

  /** Leaves the scope of `inner`, keeping the caller's context `ctx` and any exception. */
  function Leave(ctx: Context, inner: Context, st: State, exc: Option<Exception>): (r: Reply)
    requires exc != Some(Terminated) ==> Nested(inner, st)
    ensures r.ctx == ctx && r.st.budget == st.budget
    ensures r.exc != Some(Terminated) ==>
              |r.st.scope| == |r.st.subScope| && |r.st.scope| == Depth(inner, st)
    ensures r.exc == exc || r.exc == Some(Terminated)
  {
    if exc == Some(Terminated) then Reply(ctx, st, exc)
    else match Close(inner, st)
      case Some(closed) => Reply(ctx, closed, exc)
      case None => Reply(ctx, st, Some(Terminated))
  }

  function DeclareSub(ctx: Context, st: State, sub: Sub): Reply
    requires st.subScope != []
  {
    var n := |st.subScope| - 1;
    if SignatureOf(sub) in st.subScope[n] then Fail(ctx, st, RedeclaredSub)
    else Reply(ctx, st.(subScope := st.subScope[..n] + [st.subScope[n][SignatureOf(sub) := sub]]), None)
  }

  /** Address of a variable, innermost scope first; zero when there is none. */
  function Lookup(scope: seq<Frame>, name: string): nat {
    if scope == [] then 0
    else if name in Last(scope) then Last(scope)[name]
    else Lookup(scope[..|scope| - 1], name)
  }

  function FindSub(scope: seq<SubFrame>, sig: Signature): Option<Sub> {
    if scope == [] then None
    else if sig in Last(scope) then Some(Last(scope)[sig])
    else FindSub(scope[..|scope| - 1], sig)
  }

  // ----- host interaction

  function Notify(host: Host, ctx: Context, st: State, message: Message): Reply {
    var response := host.respond(st.clock, message, st.data);
    Reply(ctx, st.(data := response.data, clock := st.clock + 1),
          if response.throws then Some(Thrown(HostFailure)) else None)
  }

  // ----- expressions

  datatype Evaluated = Evaluated(reply: Reply, value: Number)

  function Threw(r: Reply): Evaluated { Evaluated(r, NonFinite) }

  function WithResult(r: Reply, value: Number): Reply { r.(ctx := r.ctx.(result := value)) }

  function Eval(host: Host, e: Expr, ctx: Context, st: State, dereference: bool): (v: Evaluated)
    requires Nested(ctx, st)
    ensures KeepsDepth(ctx, st, v.reply) && KeepsContext(ctx, v.reply)
    decreases st.budget, 1, e, 3
  {
    var s := if dereference && IsVariable(e) then Notify(host, ctx, st, Synchronize) else Reply(ctx, st, None);
    if s.exc.Some? then Threw(s)
    else
      var r := VisitExpr(host, e, s.ctx, s.st);
      if r.exc.Some? then Threw(r)
      else if dereference && IsVariable(e) then
        match ToAddress(r.ctx.result)
        case Err(x) => Threw(Fail(r.ctx, r.st, x))
        case Ok(address) =>
          match ReadCell(r.st, address)
          case Err(x) => Threw(Fail(r.ctx, r.st, x))
          case Ok(value) => Evaluated(r, value)
      else Evaluated(r, r.ctx.result)
  }

  function Addressed(v: Evaluated): Reply {
    if v.reply.exc.Some? then v.reply
    else match ToAddress(v.value)
      case Err(x) => Fail(v.reply.ctx, v.reply.st, x)
      case Ok(address) => WithResult(v.reply, Finite(address as real))
  }

  function Assigned(left: Number, value: Number, r: Reply): Reply {
    match ToAddress(left)
    case Err(x) => Fail(r.ctx, r.st, x)
    case Ok(address) =>
      match WriteCell(r.st, address, value)
      case Err(x) => Fail(r.ctx, r.st, x)
      case Ok(st') => Reply(r.ctx.(result := value), st', None)
  }

  function VisitExpr(host: Host, e: Expr, ctx: Context, st: State): (r: Reply)
    requires Nested(ctx, st)
    ensures KeepsDepth(ctx, st, r) && KeepsContext(ctx, r)
    decreases st.budget, 1, e, 2
  {
    match e
    case Literal(value) => Reply(ctx.(result := value), st, None)
    case StringLiteral(_) => Reply(ctx, st, None)
    case Named(name) =>
      var address := Lookup(st.scope, name);
      if address == 0 then Fail(ctx, st, UndeclaredVariable)
      else Reply(ctx.(result := Finite(address as real)), st, None)
    case Numeric(address) => Addressed(Eval(host, address, ctx, st, true))
    case Unary(op, operand) => VisitUnary(host, op, operand, ctx, st)
    case Binary(op, left, right) => VisitBinary(host, op, left, right, ctx, st)
    case Grouping(inner) =>
      var v := Eval(host, inner, ctx, st, true);
      if v.reply.exc.Some? then v.reply else WithResult(v.reply, v.value)
    case Call(callee, args) => VisitCall(host, callee, args, ctx, st)
  }

  function VisitUnary(host: Host, op: UnaryOp, operand: Expr, ctx: Context, st: State): (r: Reply)
    requires Nested(ctx, st)
    ensures KeepsDepth(ctx, st, r) && KeepsContext(ctx, r)
    decreases st.budget, 1, operand, 4
  {
    if op == ADDRESS_OF then
      if !IsVariable(operand) then Fail(ctx, st, BadAddressOf)
      else Addressed(Eval(host, operand, ctx, st, false))
    else
      var v := Eval(host, operand, ctx, st, true);
      if v.reply.exc.Some? then v.reply
      else WithResult(v.reply, if op == NEGATIVE then host.negate(v.value) else v.value)
  }

  /** Both operands, left then right; the target of an assignment is not read.
      The reply is the left operand's if that threw. */
  function EvalPair(host: Host, op: BinaryOp, left: Expr, right: Expr, ctx: Context, st: State): (p: (Number, Evaluated))
    requires Nested(ctx, st)
    ensures KeepsDepth(ctx, st, p.1.reply) && KeepsContext(ctx, p.1.reply)
    decreases st.budget, 1, Binary(op, left, right), 0
  {
    var l := Eval(host, left, ctx, st, op != ASSIGN);
    if l.reply.exc.Some? then (l.value, l)
    else (l.value, Eval(host, right, l.reply.ctx, l.reply.st, true))
  }

  function Combined(host: Host, op: BinaryOp, left: Number, right: Number, r: Reply): Reply {
    if op == ASSIGN then Assigned(left, right, r) else WithResult(r, host.compute(op.operator, left, right))
  }

  function VisitBinary(host: Host, op: BinaryOp, left: Expr, right: Expr, ctx: Context, st: State): (r: Reply)
    requires Nested(ctx, st)
    ensures KeepsDepth(ctx, st, r) && KeepsContext(ctx, r)
    decreases st.budget, 1, Binary(op, left, right), 1
  {
    if op == ASSIGN && !IsVariable(left) then Fail(ctx, st, BadAssignment)
    else
      var (l, v) := EvalPair(host, op, left, right, ctx, st);
      if v.reply.exc.Some? then v.reply else Combined(host, op, l, v.value, v.reply)
  }

  /** Arguments of `print` and `alert`, left to right. */
  function EvalItems(host: Host, args: seq<Expr>, ctx: Context, st: State): (r: (Reply, seq<Expr>))
    requires Nested(ctx, st)
    ensures KeepsDepth(ctx, st, r.0) && KeepsContext(ctx, r.0)
    decreases st.budget, 1, args, 0
  {
    if args == [] then (Reply(ctx, st, None), [])
    else if args[0].StringLiteral? then
      var rest := EvalItems(host, args[1..], ctx, st);
      (rest.0, [args[0]] + rest.1)
    else
      var v := Eval(host, args[0], ctx, st, true);
      if v.reply.exc.Some? then (v.reply, [])
      else
        var rest := EvalItems(host, args[1..], v.reply.ctx, v.reply.st);
        (rest.0, [Literal(v.value)] + rest.1)
  }

  datatype Bound = Bound(reply: Reply, inner: Context)

  function BindOne(host: Host, arg: Expr, param: string, ctx: Context, inner: Context, st: State): (b: Bound)
    requires Nested(ctx, st) && Nested(inner, st)
    ensures BindKeepsDepth(ctx, inner, st, b)
    decreases st.budget, 1, arg, 4
  {
    if arg.StringLiteral? then Bound(Fail(ctx, st, NotReal), inner)
    else
      var v := Eval(host, arg, ctx, st, true);
      if v.reply.exc.Some? then Bound(v.reply, inner)
      else
        var a := Allocate(inner, v.reply.st, param, v.value);
        Bound(Reply(v.reply.ctx, a.st, a.exc), a.ctx)
  }

  ghost predicate BindKeepsDepth(ctx: Context, inner: Context, st: State, b: Bound) {
    && b.reply.st.budget <= st.budget && KeepsContext(ctx, b.reply)
    && (b.reply.exc != Some(Terminated) ==>
          && Nested(b.inner, b.reply.st) && b.inner == inner.(live := b.inner.live)
          && Depth(b.inner, b.reply.st) == Depth(inner, st) && Nested(ctx, b.reply.st))
  }

  /** Binds arguments to parameters one at a time: a later argument is
      evaluated with the earlier parameters already in scope. */
  function BindArgs(host: Host, args: seq<Expr>, params: seq<string>, ctx: Context, inner: Context, st: State): (b: Bound)
    requires |args| == |params| && Nested(ctx, st) && Nested(inner, st)
    ensures BindKeepsDepth(ctx, inner, st, b)
    decreases st.budget, 1, args, 0
  {
    if args == [] then Bound(Reply(ctx, st, None), inner)
    else
      var b := BindOne(host, args[0], params[0], ctx, inner, st);
      if b.reply.exc.Some? then b
      else BindArgs(host, args[1..], params[1..], b.reply.ctx, b.inner, b.reply.st)
  }

  function VisitCall(host: Host, callee: string, args: seq<Expr>, ctx: Context, st: State): (r: Reply)
    requires Nested(ctx, st)
    ensures KeepsDepth(ctx, st, r) && KeepsContext(ctx, r)
    decreases st.budget, 1, args, 2
  {
    var cleared := ctx.(result := Finite(0.0));
    if callee == "print" || callee == "alert" then CallPrint(host, callee == "alert", args, cleared, st)
    else
      match FindSub(st.subScope, Signature(callee, |args|))
      case None => Fail(cleared, st, UndefinedSub)
      case Some(sub) =>
        if |sub.params| != |args| then Fail(cleared, st, ParameterMismatch)
        else CallSub(host, sub, args, cleared, st)
  }

  function CallPrint(host: Host, alert: bool, args: seq<Expr>, ctx: Context, st: State): (r: Reply)
    requires Nested(ctx, st)
    ensures KeepsDepth(ctx, st, r) && KeepsContext(ctx, r)
    decreases st.budget, 1, args, 1
  {
    var s := Notify(host, ctx, st, Synchronize);
    if s.exc.Some? then s
    else
      var (r, items) := EvalItems(host, args, s.ctx, s.st);
      if r.exc.Some? then r else Notify(host, r.ctx, r.st, Print(items, alert))
  }

  function CallSub(host: Host, sub: Sub, args: seq<Expr>, ctx: Context, st: State): (r: Reply)
    requires Nested(ctx, st) && |sub.params| == |args|
    ensures KeepsDepth(ctx, st, r) && KeepsContext(ctx, r)
    decreases st.budget, 1, args, 1
  {
    var b := BindArgs(host, args, sub.params, ctx, LOCAL, st);
    if b.reply.exc.Some? then Leave(b.reply.ctx, b.inner, b.reply.st, b.reply.exc)
    else
      var body := RunBody(host, sub.body, b.inner, b.reply.st);
      var returned := body.exc.None? && body.ctx.action == RETURN;
      Leave(if returned then b.reply.ctx.(result := body.ctx.result) else b.reply.ctx, body.ctx, body.st, body.exc)
  }

  // ----- statements

  /** A subroutine's body: only a return ends it early. */
  function RunBody(host: Host, body: seq<Stmt>, ctx: Context, st: State): (r: Reply)
    requires Nested(ctx, st)
    ensures KeepsDepth(ctx, st, r)
    decreases st.budget, 0, |body| + 1
  {
    if body == [] then Reply(ctx, st, None)
    else
      var r := Execute(host, body[0], ctx, st);
      if r.exc.Some? || r.ctx.action == RETURN then r else RunBody(host, body[1..], r.ctx, r.st)
  }

  /** A compound statement: any action ends it early. */
  function RunCompound(host: Host, body: seq<Stmt>, ctx: Context, st: State): (r: Reply)
    requires Nested(ctx, st)
    ensures KeepsDepth(ctx, st, r)
    decreases st.budget, 0, |body| + 1
  {
    if body == [] then Reply(ctx, st, None)
    else
      var r := Execute(host, body[0], ctx, st);
      if r.exc.Some? || r.ctx.action != NONE then r else RunCompound(host, body[1..], r.ctx, r.st)
  }

  /** executeStatement: the interrupt hook, then the visit. */
  function Execute(host: Host, s: Stmt, ctx: Context, st: State): (r: Reply)
    requires Nested(ctx, st)
    ensures KeepsDepth(ctx, st, r)
    ensures r.exc.None? ==> r.st.budget < st.budget
    decreases st.budget, 0, 0
  {
    if st.budget == 0 then Fail(ctx, st, Interrupted)
    else
      var i := Notify(host, ctx, st.(budget := st.budget - 1), Interrupt);
      if i.exc.Some? then i else VisitStmt(host, s, i.ctx, i.st)
  }

  function Propagate(parent: Context, child: Context): Context {
    if child.action == RETURN then parent.(action := RETURN, result := child.result)
    else parent.(action := child.action)
  }

  /** A branch of an `if`, in its own scope. */
  function RunBranch(host: Host, s: Stmt, ctx: Context, st: State): (r: Reply)
    requires Nested(ctx, st)
    ensures KeepsDepth(ctx, st, r) && r.ctx.live == ctx.live
    decreases st.budget, 0, 1
  {
    var r := Execute(host, s, LOCAL, st);
    Leave(if r.exc.None? then Propagate(ctx, r.ctx) else ctx, r.ctx, r.st, r.exc)
  }

  /** The body of a while loop, in its own scope; the flag asks for another turn. */
  function RunLoop(host: Host, loop: Stmt, ctx: Context, st: State): (turn: (Reply, bool))
    requires Nested(ctx, st)
    ensures KeepsDepth(ctx, st, turn.0) && turn.0.ctx.live == ctx.live
    ensures turn.1 ==> turn.0.exc.None? && turn.0.st.budget < st.budget && turn.0.ctx == ctx
    ensures turn.0.ctx.action == ctx.action || turn.0.ctx.action == RETURN
    decreases st.budget, 0, 1
  {
    var r := Execute(host, loop, LOCAL, st);
    var left := Leave(if r.exc.None? && r.ctx.action == RETURN then Propagate(ctx, r.ctx) else ctx, r.ctx, r.st, r.exc);
    (left, left.exc.None? && r.ctx.action != RETURN && r.ctx.action != BREAK)
  }

  function WhileStep(host: Host, condition: Expr, loop: Stmt, ctx: Context, st: State): (step: (Reply, bool))
    requires Nested(ctx, st)
    ensures KeepsDepth(ctx, st, step.0) && step.0.ctx.live == ctx.live
    ensures step.1 ==> step.0.exc.None? && step.0.st.budget < st.budget
    decreases st.budget, 2, 0
  {
    var c := Eval(host, condition, ctx, st, true);
    if c.reply.exc.Some? || c.value == Finite(0.0) then (c.reply, false)
    else RunLoop(host, loop, c.reply.ctx, c.reply.st)
  }

  function VisitWhile(host: Host, condition: Expr, loop: Stmt, ctx: Context, st: State): (r: Reply)
    requires Nested(ctx, st)
    ensures KeepsDepth(ctx, st, r) && r.ctx.live == ctx.live
    decreases st.budget, 2, 1
  {
    var (r, again) := WhileStep(host, condition, loop, ctx, st);
    if again then VisitWhile(host, condition, loop, r.ctx, r.st) else r
  }

  function EvalWords(host: Host, reals: seq<Expr>, ctx: Context, st: State): (r: (Reply, seq<Number>))
    requires Nested(ctx, st)
    ensures KeepsDepth(ctx, st, r.0) && KeepsContext(ctx, r.0)
    decreases st.budget, 1, reals, 0
  {
    if reals == [] then (Reply(ctx, st, None), [])
    else
      var v := Eval(host, reals[0], ctx, st, true);
      if v.reply.exc.Some? then (v.reply, [])
      else
        var rest := EvalWords(host, reals[1..], v.reply.ctx, v.reply.st);
        (rest.0, [v.value] + rest.1)
  }

  /** A non-global alias: an entry in the innermost scope, unless one is there; no cell is pushed. */
  function BindAlias(v: Evaluated, name: string): Reply
    requires v.reply.exc.None? ==> v.reply.st.scope != []
  {
    if v.reply.exc.Some? then v.reply
    else match ToAddress(v.value)
      case Err(x) => Fail(v.reply.ctx, v.reply.st, x)
      case Ok(address) =>
        if name in Last(v.reply.st.scope) then v.reply
        else v.reply.(st := Declared(v.reply.st, name, address))
  }

  function EvalInit(host: Host, init: Option<Expr>, ctx: Context, st: State): (v: Evaluated)
    requires Nested(ctx, st)
    ensures KeepsDepth(ctx, st, v.reply) && KeepsContext(ctx, v.reply)
    decreases st.budget, 1, init, 0
  {
    if init.Some? then Eval(host, init.value, ctx, st, true)
    else Evaluated(Reply(ctx, st, None), Finite(0.0))
  }

  function VisitLet(host: Host, name: string, init: Option<Expr>, ctx: Context, st: State): (r: Reply)
    requires Nested(ctx, st)
    ensures KeepsDepth(ctx, st, r)
    decreases st.budget, 2, 0
  {
    var v := EvalInit(host, init, ctx, st);
    if v.reply.exc.Some? then v.reply else Allocate(v.reply.ctx, v.reply.st, name, v.value)
  }

  function VisitAlias(host: Host, name: string, target: Expr, ctx: Context, st: State): (r: Reply)
    requires Nested(ctx, st)
    ensures KeepsDepth(ctx, st, r)
    decreases st.budget, 2, 0
  {
    BindAlias(Eval(host, target, ctx, st, true), name)
  }

  function VisitBlock(host: Host, letters: seq<char>, reals: seq<Expr>, ctx: Context, st: State): (r: Reply)
    requires Nested(ctx, st)
    ensures KeepsDepth(ctx, st, r)
    decreases st.budget, 2, 0
  {
    var (r, values) := EvalWords(host, reals, ctx, st);
    if r.exc.Some? then r
    else
      var n := Notify(host, r.ctx, r.st, Words(letters, values));
      var routine := host.respond(r.st.clock, Words(letters, values), r.st.data).routine;
      if n.exc.Some? || routine.None? then n else CallBack(host, routine.value, n.ctx, n.st)
  }

  function Literals(values: seq<Number>): (args: seq<Expr>)
    ensures |args| == |values|
  {
    seq(|values|, i requires 0 <= i < |values| => Literal(values[i]))
  }

  /** callImpl from inside a callback: a context of its own over whatever scopes
      are open; the callback hears how the call ended, then returns or throws. */
  function CallBack(host: Host, routine: Routine, ctx: Context, st: State): (r: Reply)
    requires Nested(ctx, st)
    ensures KeepsDepth(ctx, st, r) && r.ctx == ctx
    decreases st.budget, 1, Call(routine.callee, Literals(routine.args)), 4
  {
    var v := Eval(host, Call(routine.callee, Literals(routine.args)), GLOBAL, st, true);
    if v.reply.exc == Some(Terminated) then v.reply.(ctx := ctx)
    else
      var told := if v.reply.exc.None? then Some(v.value) else None;
      var n := Notify(host, ctx, v.reply.st, Returned(told));
      if v.reply.exc.Some? then n.(exc := v.reply.exc) else n
  }

  function VisitReturn(host: Host, e: Expr, ctx: Context, st: State): (r: Reply)
    requires Nested(ctx, st)
    ensures KeepsDepth(ctx, st, r)
    decreases st.budget, 2, 0
  {
    var v := Eval(host, e, ctx, st, true);
    if v.reply.exc.Some? then v.reply
    else v.reply.(ctx := v.reply.ctx.(result := v.value, action := RETURN))
  }

  function Choose(host: Host, taken: bool, thn: Stmt, els: Option<Stmt>, ctx: Context, st: State): (r: Reply)
    requires Nested(ctx, st)
    ensures KeepsDepth(ctx, st, r) && r.ctx.live == ctx.live
    decreases st.budget, 0, 2
  {
    if taken then RunBranch(host, thn, ctx, st)
    else if els.Some? then RunBranch(host, els.value, ctx, st)
    else Reply(ctx, st, None)
  }

  function VisitIf(host: Host, condition: Expr, thn: Stmt, els: Option<Stmt>, ctx: Context, st: State): (r: Reply)
    requires Nested(ctx, st)
    ensures KeepsDepth(ctx, st, r) && r.ctx.live == ctx.live
    decreases st.budget, 2, 0
  {
    var c := Eval(host, condition, ctx, st, true);
    if c.reply.exc.Some? then c.reply
    else Choose(host, c.value != Finite(0.0), thn, els, c.reply.ctx, c.reply.st)
  }

  function VisitStmt(host: Host, s: Stmt, ctx: Context, st: State): (r: Reply)
    requires Nested(ctx, st)
    ensures KeepsDepth(ctx, st, r)
    decreases st.budget, 2, 2
  {
    match s
    case Evaluate(e) => VisitExpr(host, e, ctx, st)
    case Compound(body) => RunCompound(host, body, ctx, st)
    case Alias(name, target) => if ctx.global then Reply(ctx, st, None) else VisitAlias(host, name, target, ctx, st)
    case Let(name, init) => if ctx.global then Reply(ctx, st, None) else VisitLet(host, name, init, ctx, st)
    case Block(letters, reals) => VisitBlock(host, letters, reals, ctx, st)
    case Return(e) => VisitReturn(host, e, ctx, st)
    case Break => Reply(ctx.(action := BREAK), st, None)
    case Continue => Reply(ctx.(action := CONTINUE), st, None)
    case If(condition, thn, els) => VisitIf(host, condition, thn, els, ctx, st)
    case While(condition, loop) => VisitWhile(host, condition, loop, ctx, st)
    case Declare(sub) => if ctx.global then Reply(ctx, st, None) else DeclareSub(ctx, st, sub)
  }

  // ----- program passes

  /** declareGlobal of the first pass. */
  function DeclareGlobal(ctx: Context, st: State, name: string, address: nat, value: Number): Reply
    requires st.scope != []
  {
    if name in Last(st.scope) then Fail(ctx, st, RedeclaredGlobal)
    else if address == 0 then
      Reply(ctx, Declared(st, name, |st.data|).(data := st.data + [Cell(value, true, true)]), None)
    else Reply(ctx, Declared(st, name, address), None)
  }

  function FirstPass(host: Host, program: seq<Stmt>, ctx: Context, st: State): (r: Reply)
    requires Nested(ctx, st)
    ensures KeepsDepth(ctx, st, r) && r.ctx.live == ctx.live
    decreases |program|
  {
    if program == [] then Reply(ctx, st, None)
    else if st.budget == 0 then Fail(ctx, st, Interrupted)
    else
      var i := Notify(host, ctx, st.(budget := st.budget - 1), Interrupt);
      if i.exc.Some? then i
      else
        var r := FirstPassStatement(host, program[0], i.ctx, i.st);
        if r.exc.Some? then r else FirstPass(host, program[1..], r.ctx, r.st)
  }

  function FirstPassAlias(host: Host, name: string, target: Expr, ctx: Context, st: State): (r: Reply)
    requires Nested(ctx, st)
    ensures KeepsDepth(ctx, st, r) && KeepsContext(ctx, r)
  {
    var v := Eval(host, target, ctx, st, true);
    if v.reply.exc.Some? then v.reply
    else match ToAddress(v.value)
      case Err(x) => Fail(v.reply.ctx, v.reply.st, x)
      case Ok(address) => DeclareGlobal(v.reply.ctx, v.reply.st, name, address, Finite(0.0))
  }

  function FirstPassLet(host: Host, name: string, init: Option<Expr>, ctx: Context, st: State): (r: Reply)
    requires Nested(ctx, st)
    ensures KeepsDepth(ctx, st, r) && KeepsContext(ctx, r)
  {
    var v := EvalInit(host, init, ctx, st);
    if v.reply.exc.Some? then v.reply else DeclareGlobal(v.reply.ctx, v.reply.st, name, 0, v.value)
  }

  function FirstPassStatement(host: Host, s: Stmt, ctx: Context, st: State): (r: Reply)
    requires Nested(ctx, st)
    ensures KeepsDepth(ctx, st, r) && KeepsContext(ctx, r)
  {
    match s
    case Alias(name, target) => FirstPassAlias(host, name, target, ctx, st)
    case Let(name, init) => FirstPassLet(host, name, init, ctx, st)
    case Declare(sub) => DeclareSub(ctx, st, sub)
    case _ => Reply(ctx, st, None)
  }

  function SecondPass(host: Host, program: seq<Stmt>, ctx: Context, st: State): (r: Reply)
    requires Nested(ctx, st)
    ensures KeepsDepth(ctx, st, r)
    decreases |program|
  {
    if program == [] then Reply(ctx, st, None)
    else
      var r := Execute(host, program[0], ctx, st);
      if r.exc.Some? then r else SecondPass(host, program[1..], r.ctx, r.st)
  }
}
