/** Scope and stack discipline of the evaluator: what a program whose aliases
    are all global can never break. */
module NgcDiscipline {
  import opened Text
  import opened Doubles
  import opened NgcSyntax
  import opened NgcSemantics

  // ----- the invariant

  /** A local scope's entries are the cells `lo..hi` of the memory stack: as many
      entries as cells, each naming one of them, no two the same one (while the
      stack is shorter than the address space). */
  ghost predicate FrameOk(frame: Frame, lo: int, hi: int) {
    && 0 <= lo
    && |frame| == hi - lo
    && (forall name | name in frame :: exists c: nat | lo <= c < hi :: frame[name] == StackAddress(c))
    && (hi <= ADDR_STACK ==>
          forall a, b | a in frame && b in frame && a != b :: frame[a] != frame[b])
  }

  /** The stack is the concatenation of the local scopes' cells. */
  ghost predicate Framed(scope: seq<Frame>, height: int) {
    if |scope| <= 1 then height == 0
    else
      var top := Last(scope);
      FrameOk(top, height - |top|, height) && Framed(scope[..|scope| - 1], height - |top|)
  }

  ghost predicate SubsAliasFree(subScope: seq<SubFrame>) {
    forall i, sig | 0 <= i < |subScope| && sig in subScope[i] :: AliasFreeSub(subScope[i][sig])
  }

  ghost predicate Sound(st: State) {
    Framed(st.scope, |st.stack|) && SubsAliasFree(st.subScope)
  }

  /** The scopes below the one a context owns. */
  ghost function Below(ctx: Context, st: State): seq<Frame>
    requires Nested(ctx, st)
  {
    if ctx.live then st.scope[..|st.scope| - 1] else st.scope
  }

  /** A visit: everything below the context's own scope is exactly as before. */
  ghost predicate Balanced(ctx: Context, st: State, r: Reply)
    requires Nested(ctx, st)
  {
    && r.exc != Some(Terminated)
    && Nested(r.ctx, r.st)
    && Sound(r.st)
    && Below(r.ctx, r.st) == Below(ctx, st)
  }

  /** An expression: all scopes and the stack height exactly as before. */
  ghost predicate Neutral(st: State, r: Reply) {
    && r.exc != Some(Terminated)
    && Sound(r.st)
    && r.st.scope == st.scope
    && |r.st.stack| == |st.stack|
    && |r.st.subScope| == |st.subScope|
  }

  // ----- scope primitives

  lemma {:induction false} HeightIsDetermined(scope: seq<Frame>, a: int, b: int)
    requires Framed(scope, a) && Framed(scope, b)
    ensures a == b
  {
    if |scope| > 1 {
      HeightIsDetermined(scope[..|scope| - 1], a - |Last(scope)|, b - |Last(scope)|);
    }
  }

  lemma StackAddressesDiffer(a: nat, b: nat)
    requires a < b < ADDR_STACK
    ensures StackAddress(a) != StackAddress(b)
  {}

  lemma PushExtendsFrame(frame: Frame, lo: int, hi: nat, name: string, address: nat)
    requires FrameOk(frame, lo, hi) && name !in frame && address == StackAddress(hi)
    ensures FrameOk(frame[name := address], lo, hi + 1)
  {
    var longer := frame[name := address];
    forall n | n in longer ensures exists c: nat | lo <= c < hi + 1 :: longer[n] == StackAddress(c) {
      if n != name {
        var c: nat :| lo <= c < hi && frame[n] == StackAddress(c);
        assert longer[n] == StackAddress(c);
      }
    }
    if hi + 1 <= ADDR_STACK {
      forall n | n in frame ensures frame[n] != address {
        var c: nat :| lo <= c < hi && frame[n] == StackAddress(c);
        StackAddressesDiffer(c, hi);
      }
    }
  }

  lemma OpenIsSound(st: State)
    requires Sound(st) && st.scope != []
    ensures Sound(Open(st))
  {
    var after := Open(st);
    assert after.scope[..|after.scope| - 1] == st.scope;
  }

  lemma PushIsSound(st: State, name: string, value: Number)
    requires Sound(st) && |st.scope| >= 2 && name !in Last(st.scope)
    ensures Sound(Declared(st, name, StackAddress(|st.stack|)).(stack := st.stack + [value]))
    ensures Declared(st, name, StackAddress(|st.stack|)).scope[..|st.scope| - 1] == st.scope[..|st.scope| - 1]
  {
    var after := Declared(st, name, StackAddress(|st.stack|)).(stack := st.stack + [value]);
    PushExtendsFrame(Last(st.scope), |st.stack| - |Last(st.scope)|, |st.stack|, name, StackAddress(|st.stack|));
    assert after.scope[..|after.scope| - 1] == st.scope[..|st.scope| - 1];
  }

  lemma AllocateBalanced(ctx: Context, st: State, name: string, value: Number)
    requires Nested(ctx, st) && Sound(st) && !ctx.global
    ensures Balanced(ctx, st, Allocate(ctx, st, name, value))
  {
    if ctx.live {
      if name !in Last(st.scope) { PushIsSound(st, name, value); }
    } else {
      var after := Open(st);
      OpenIsSound(st);
      assert after.scope[..|after.scope| - 1] == st.scope;
      PushIsSound(after, name, value);
    }
  }

  /** Closing a context's scope restores exactly what was below it, stack height included. */
  lemma CloseBalanced(ctx: Context, st: State)
    requires Nested(ctx, st) && Sound(st)
    ensures Close(ctx, st).Some?
    ensures var closed := Close(ctx, st).value;
            Sound(closed) && closed.scope == Below(ctx, st) && |closed.subScope| == Depth(ctx, st)
  {
    if ctx.live {
      assert FrameOk(Last(st.scope), |st.stack| - |Last(st.scope)|, |st.stack|);
    }
  }

  lemma LeaveNeutral(ctx: Context, inner: Context, before: State, st: State, exc: Option<Exception>)
    requires exc != Some(Terminated) && Nested(inner, st) && Sound(st)
    requires Sound(before) && Below(inner, st) == before.scope && Depth(inner, st) == |before.subScope|
    ensures Neutral(before, Leave(ctx, inner, st, exc)) && Leave(ctx, inner, st, exc).exc == exc
  {
    CloseBalanced(inner, st);
    var closed := Close(inner, st).value;
    HeightIsDetermined(before.scope, |before.stack|, |closed.stack|);
  }

  lemma DeclareSubBalanced(ctx: Context, st: State, sub: Sub)
    requires Nested(ctx, st) && Sound(st) && AliasFreeSub(sub)
    ensures Balanced(ctx, st, DeclareSub(ctx, st, sub))
  {}

  lemma FindSubIsAliasFree(scope: seq<SubFrame>, sig: Signature)
    requires SubsAliasFree(scope) && FindSub(scope, sig).Some?
    ensures AliasFreeSub(FindSub(scope, sig).value)
  {}

  // ----- expressions

  lemma {:induction false} EvalNeutral(host: Host, e: Expr, ctx: Context, st: State, dereference: bool)
    requires Nested(ctx, st) && Sound(st)
    ensures Neutral(st, Eval(host, e, ctx, st, dereference).reply)
    decreases st.budget, 1, e, 3
  {
    var s := if dereference && IsVariable(e) then Notify(host, ctx, st, Synchronize) else Reply(ctx, st, None);
    VisitExprNeutral(host, e, s.ctx, s.st);
  }

  lemma {:induction false} VisitExprNeutral(host: Host, e: Expr, ctx: Context, st: State)
    requires Nested(ctx, st) && Sound(st)
    ensures Neutral(st, VisitExpr(host, e, ctx, st))
    decreases st.budget, 1, e, 2
  {
    match e
    case Literal(_) =>
    case StringLiteral(_) =>
    case Named(_) =>
    case Numeric(address) => EvalNeutral(host, address, ctx, st, true);
    case Unary(op, operand) => VisitUnaryNeutral(host, op, operand, ctx, st);
    case Binary(op, left, right) => VisitBinaryNeutral(host, op, left, right, ctx, st);
    case Grouping(inner) => EvalNeutral(host, inner, ctx, st, true);
    case Call(callee, args) => VisitCallNeutral(host, callee, args, ctx, st);
  }

  lemma {:induction false} VisitUnaryNeutral(host: Host, op: UnaryOp, operand: Expr, ctx: Context, st: State)
    requires Nested(ctx, st) && Sound(st)
    ensures Neutral(st, VisitUnary(host, op, operand, ctx, st))
    decreases st.budget, 1, operand, 4
  {
    EvalNeutral(host, operand, ctx, st, op != ADDRESS_OF);
  }

  lemma NeutralTransitive(a: State, r: Reply, s: Reply)
    requires Neutral(a, r) && Neutral(r.st, s)
    ensures Neutral(a, s)
  {}

  lemma CombinedNeutral(host: Host, op: BinaryOp, st: State, left: Number, right: Number, r: Reply)
    requires Neutral(st, r)
    ensures Neutral(st, Combined(host, op, left, right, r))
  {}

  lemma {:induction false} EvalPairNeutral(host: Host, op: BinaryOp, left: Expr, right: Expr, ctx: Context, st: State)
    requires Nested(ctx, st) && Sound(st)
    ensures Neutral(st, EvalPair(host, op, left, right, ctx, st).1.reply)
    decreases st.budget, 1, Binary(op, left, right), 0
  {
    hide Eval, Sound;
    var l := Eval(host, left, ctx, st, op != ASSIGN);
    var p := EvalPair(host, op, left, right, ctx, st).1.reply;
    EvalNeutral(host, left, ctx, st, op != ASSIGN);
    if l.reply.exc.None? {
      assert Neutral(l.reply.st, p) by {
        EvalNeutral(host, right, l.reply.ctx, l.reply.st, true);
      }
      NeutralTransitive(st, l.reply, p);
    }
  }

  lemma {:induction false} VisitBinaryNeutral(host: Host, op: BinaryOp, left: Expr, right: Expr, ctx: Context, st: State)
    requires Nested(ctx, st) && Sound(st)
    ensures Neutral(st, VisitBinary(host, op, left, right, ctx, st))
    decreases st.budget, 1, Binary(op, left, right), 1
  {
    if !(op == ASSIGN && !IsVariable(left)) {
      EvalPairNeutral(host, op, left, right, ctx, st);
      var (l, v) := EvalPair(host, op, left, right, ctx, st);
      CombinedNeutral(host, op, st, l, v.value, v.reply);
    }
  }

  lemma {:induction false} EvalItemsNeutral(host: Host, args: seq<Expr>, ctx: Context, st: State)
    requires Nested(ctx, st) && Sound(st)
    ensures Neutral(st, EvalItems(host, args, ctx, st).0)
    decreases st.budget, 1, args, 0
  {
    if args != [] {
      if args[0].StringLiteral? {
        EvalItemsNeutral(host, args[1..], ctx, st);
      } else {
        EvalNeutral(host, args[0], ctx, st, true);
        var v := Eval(host, args[0], ctx, st, true);
        if v.reply.exc.None? {
          EvalItemsNeutral(host, args[1..], v.reply.ctx, v.reply.st);
        }
      }
    }
  }

  /** Binding grows only the callee's scope. */
  ghost predicate Bindable(inner: Context, st: State, b: Bound)
    requires Nested(inner, st)
  {
    && b.reply.exc != Some(Terminated)
    && Nested(b.inner, b.reply.st) && Sound(b.reply.st)
    && Below(b.inner, b.reply.st) == Below(inner, st)
    && Depth(b.inner, b.reply.st) == Depth(inner, st)
  }

  lemma {:induction false} BindOneBalanced(
    host: Host, arg: Expr, param: string, ctx: Context, inner: Context, st: State)
    requires Nested(ctx, st) && Nested(inner, st) && Sound(st) && !inner.global
    ensures Bindable(inner, st, BindOne(host, arg, param, ctx, inner, st))
    decreases st.budget, 1, arg, 4
  {
    if !arg.StringLiteral? {
      EvalNeutral(host, arg, ctx, st, true);
      var v := Eval(host, arg, ctx, st, true);
      if v.reply.exc.None? {
        AllocateBalanced(inner, v.reply.st, param, v.value);
      }
    }
  }

  lemma {:induction false} BindArgsBalanced(
    host: Host, args: seq<Expr>, params: seq<string>, ctx: Context, inner: Context, st: State)
    requires |args| == |params| && Nested(ctx, st) && Nested(inner, st) && Sound(st) && !inner.global
    ensures Bindable(inner, st, BindArgs(host, args, params, ctx, inner, st))
    decreases st.budget, 1, args, 0
  {
    if args != [] {
      BindOneBalanced(host, args[0], params[0], ctx, inner, st);
      var b := BindOne(host, args[0], params[0], ctx, inner, st);
      if b.reply.exc.None? {
        BindArgsBalanced(host, args[1..], params[1..], b.reply.ctx, b.inner, b.reply.st);
      }
    }
  }

  lemma {:induction false} VisitCallNeutral(host: Host, callee: string, args: seq<Expr>, ctx: Context, st: State)
    requires Nested(ctx, st) && Sound(st)
    ensures Neutral(st, VisitCall(host, callee, args, ctx, st))
    decreases st.budget, 1, args, 2
  {
    var cleared := ctx.(result := Finite(0.0));
    if callee == "print" || callee == "alert" {
      var s := Notify(host, cleared, st, Synchronize);
      EvalItemsNeutral(host, args, s.ctx, s.st);
    } else {
      var found := FindSub(st.subScope, Signature(callee, |args|));
      if found.Some? && |found.value.params| == |args| {
        FindSubIsAliasFree(st.subScope, Signature(callee, |args|));
        CallSubNeutral(host, found.value, args, cleared, st);
      }
    }
  }

  lemma {:induction false} CallSubNeutral(host: Host, sub: Sub, args: seq<Expr>, ctx: Context, st: State)
    requires Nested(ctx, st) && Sound(st) && |sub.params| == |args| && AliasFreeSub(sub)
    ensures Neutral(st, CallSub(host, sub, args, ctx, st))
    decreases st.budget, 1, args, 1
  {
    BindArgsBalanced(host, args, sub.params, ctx, LOCAL, st);
    var b := BindArgs(host, args, sub.params, ctx, LOCAL, st);
    if b.reply.exc.Some? {
      LeaveNeutral(b.reply.ctx, b.inner, st, b.reply.st, b.reply.exc);
    } else {
      RunBodyBalanced(host, sub.body, b.inner, b.reply.st);
      var body := RunBody(host, sub.body, b.inner, b.reply.st);
      var returned := body.exc.None? && body.ctx.action == RETURN;
      LeaveNeutral(if returned then b.reply.ctx.(result := body.ctx.result) else b.reply.ctx,
                   body.ctx, st, body.st, body.exc);
    }
  }

  // ----- statements

  /** No alias but those a global context ignores. */
  predicate Tame(ctx: Context, s: Stmt) { AliasFree(s) || (ctx.global && AliasesOutside(s)) }

  lemma {:induction false} RunBodyBalanced(host: Host, body: seq<Stmt>, ctx: Context, st: State)
    requires Nested(ctx, st) && Sound(st) && forall t | t in body :: AliasFree(t)
    ensures Balanced(ctx, st, RunBody(host, body, ctx, st))
    decreases st.budget, 0, |body| + 1
  {
    if body != [] {
      ExecuteBalanced(host, body[0], ctx, st);
      var r := Execute(host, body[0], ctx, st);
      if r.exc.None? && r.ctx.action != RETURN {
        RunBodyBalanced(host, body[1..], r.ctx, r.st);
      }
    }
  }

  lemma {:induction false} RunCompoundBalanced(host: Host, body: seq<Stmt>, ctx: Context, st: State)
    requires Nested(ctx, st) && Sound(st) && forall t | t in body :: Tame(ctx, t)
    ensures Balanced(ctx, st, RunCompound(host, body, ctx, st))
    decreases st.budget, 0, |body| + 1
  {
    if body != [] {
      ExecuteBalanced(host, body[0], ctx, st);
      var r := Execute(host, body[0], ctx, st);
      if r.exc.None? && r.ctx.action == NONE {
        assert r.ctx.global == ctx.global;
        forall t | t in body[1..] ensures Tame(r.ctx, t) { assert Tame(ctx, t); }
        RunCompoundBalanced(host, body[1..], r.ctx, r.st);
      }
    }
  }

  lemma {:induction false} ExecuteBalanced(host: Host, s: Stmt, ctx: Context, st: State)
    requires Nested(ctx, st) && Sound(st) && Tame(ctx, s)
    ensures Balanced(ctx, st, Execute(host, s, ctx, st))
    decreases st.budget, 0, 0
  {
    if st.budget > 0 {
      var i := Notify(host, ctx, st.(budget := st.budget - 1), Interrupt);
      if i.exc.None? {
        VisitStmtBalanced(host, s, i.ctx, i.st);
      }
    }
  }

  lemma {:induction false} RunBranchNeutral(host: Host, s: Stmt, ctx: Context, st: State)
    requires Nested(ctx, st) && Sound(st) && AliasFree(s)
    ensures Neutral(st, RunBranch(host, s, ctx, st))
    decreases st.budget, 0, 1
  {
    ExecuteBalanced(host, s, LOCAL, st);
    var r := Execute(host, s, LOCAL, st);
    LeaveNeutral(if r.exc.None? then Propagate(ctx, r.ctx) else ctx, r.ctx, st, r.st, r.exc);
  }

  lemma {:induction false} RunLoopNeutral(host: Host, loop: Stmt, ctx: Context, st: State)
    requires Nested(ctx, st) && Sound(st) && AliasFree(loop)
    ensures Neutral(st, RunLoop(host, loop, ctx, st).0)
    decreases st.budget, 0, 1
  {
    ExecuteBalanced(host, loop, LOCAL, st);
    var r := Execute(host, loop, LOCAL, st);
    LeaveNeutral(if r.exc.None? && r.ctx.action == RETURN then Propagate(ctx, r.ctx) else ctx, r.ctx, st, r.st, r.exc);
  }

  lemma {:induction false} WhileStepNeutral(host: Host, condition: Expr, loop: Stmt, ctx: Context, st: State)
    requires Nested(ctx, st) && Sound(st) && AliasFree(loop)
    ensures Neutral(st, WhileStep(host, condition, loop, ctx, st).0)
    decreases st.budget, 2, 0
  {
    EvalNeutral(host, condition, ctx, st, true);
    var c := Eval(host, condition, ctx, st, true);
    if c.reply.exc.None? {
      RunLoopNeutral(host, loop, c.reply.ctx, c.reply.st);
      NeutralTransitive(st, c.reply, RunLoop(host, loop, c.reply.ctx, c.reply.st).0);
    }
  }

  lemma {:induction false} VisitWhileNeutral(host: Host, condition: Expr, loop: Stmt, ctx: Context, st: State)
    requires Nested(ctx, st) && Sound(st) && AliasFree(loop)
    ensures Neutral(st, VisitWhile(host, condition, loop, ctx, st))
    decreases st.budget, 2, 1
  {
    WhileStepNeutral(host, condition, loop, ctx, st);
    var (r, again) := WhileStep(host, condition, loop, ctx, st);
    if again {
      VisitWhileNeutral(host, condition, loop, r.ctx, r.st);
      NeutralTransitive(st, r, VisitWhile(host, condition, loop, r.ctx, r.st));
    }
  }

  lemma {:induction false} EvalWordsNeutral(host: Host, reals: seq<Expr>, ctx: Context, st: State)
    requires Nested(ctx, st) && Sound(st)
    ensures Neutral(st, EvalWords(host, reals, ctx, st).0)
    decreases st.budget, 1, reals, 0
  {
    if reals != [] {
      EvalNeutral(host, reals[0], ctx, st, true);
      var v := Eval(host, reals[0], ctx, st, true);
      if v.reply.exc.None? {
        EvalWordsNeutral(host, reals[1..], v.reply.ctx, v.reply.st);
      }
    }
  }

  lemma NeutralIsBalanced(ctx: Context, st: State, r: Reply)
    requires Nested(ctx, st) && Neutral(st, r) && r.ctx.live == ctx.live
    ensures Balanced(ctx, st, r)
  {}

  lemma {:induction false} VisitLetBalanced(host: Host, name: string, init: Option<Expr>, ctx: Context, st: State)
    requires Nested(ctx, st) && Sound(st) && !ctx.global
    ensures Balanced(ctx, st, VisitLet(host, name, init, ctx, st))
    decreases st.budget, 2, 0
  {
    if init.Some? {
      EvalNeutral(host, init.value, ctx, st, true);
    }
    var v := EvalInit(host, init, ctx, st);
    if v.reply.exc.None? {
      AllocateBalanced(v.reply.ctx, v.reply.st, name, v.value);
    }
  }

  lemma {:induction false} VisitBlockNeutral(host: Host, letters: seq<char>, reals: seq<Expr>, ctx: Context, st: State)
    requires Nested(ctx, st) && Sound(st)
    ensures Neutral(st, VisitBlock(host, letters, reals, ctx, st))
    ensures VisitBlock(host, letters, reals, ctx, st).ctx.live == ctx.live
    decreases st.budget, 2, 0
  {
    EvalWordsNeutral(host, reals, ctx, st);
    var (r, values) := EvalWords(host, reals, ctx, st);
    if r.exc.None? {
      var n := Notify(host, r.ctx, r.st, Words(letters, values));
      var routine := host.respond(r.st.clock, Words(letters, values), r.st.data).routine;
      if n.exc.None? && routine.Some? {
        CallBackNeutral(host, routine.value, n.ctx, n.st);
        NeutralTransitive(st, n, CallBack(host, routine.value, n.ctx, n.st));
      }
    }
  }

  lemma {:induction false} CallBackNeutral(host: Host, routine: Routine, ctx: Context, st: State)
    requires Nested(ctx, st) && Sound(st)
    ensures Neutral(st, CallBack(host, routine, ctx, st))
    decreases st.budget, 1, Call(routine.callee, Literals(routine.args)), 4
  {
    EvalNeutral(host, Call(routine.callee, Literals(routine.args)), GLOBAL, st, true);
  }

  lemma {:induction false} VisitReturnNeutral(host: Host, e: Expr, ctx: Context, st: State)
    requires Nested(ctx, st) && Sound(st)
    ensures Neutral(st, VisitReturn(host, e, ctx, st))
    ensures VisitReturn(host, e, ctx, st).ctx.live == ctx.live
    decreases st.budget, 2, 0
  {
    EvalNeutral(host, e, ctx, st, true);
  }

  lemma {:induction false} ChooseNeutral(host: Host, taken: bool, thn: Stmt, els: Option<Stmt>, ctx: Context, st: State)
    requires Nested(ctx, st) && Sound(st) && AliasFree(thn) && (els.Some? ==> AliasFree(els.value))
    ensures Neutral(st, Choose(host, taken, thn, els, ctx, st))
    decreases st.budget, 0, 2
  {
    if taken {
      RunBranchNeutral(host, thn, ctx, st);
    } else if els.Some? {
      RunBranchNeutral(host, els.value, ctx, st);
    }
  }

  lemma {:induction false} VisitIfNeutral(host: Host, condition: Expr, thn: Stmt, els: Option<Stmt>, ctx: Context, st: State)
    requires Nested(ctx, st) && Sound(st) && AliasFree(thn) && (els.Some? ==> AliasFree(els.value))
    ensures Neutral(st, VisitIf(host, condition, thn, els, ctx, st))
    decreases st.budget, 2, 0
  {
    EvalNeutral(host, condition, ctx, st, true);
    var c := Eval(host, condition, ctx, st, true);
    if c.reply.exc.None? {
      var taken := c.value != Finite(0.0);
      ChooseNeutral(host, taken, thn, els, c.reply.ctx, c.reply.st);
      NeutralTransitive(st, c.reply, Choose(host, taken, thn, els, c.reply.ctx, c.reply.st));
    }
  }

  lemma {:induction false} VisitStmtBalanced(host: Host, s: Stmt, ctx: Context, st: State)
    requires Nested(ctx, st) && Sound(st) && Tame(ctx, s)
    ensures Balanced(ctx, st, VisitStmt(host, s, ctx, st))
    decreases st.budget, 2, 2
  {
    var r := VisitStmt(host, s, ctx, st);
    match s
    case Evaluate(e) =>
      VisitExprNeutral(host, e, ctx, st);
      NeutralIsBalanced(ctx, st, r);
    case Compound(body) => RunCompoundBalanced(host, body, ctx, st);
    case Alias(_, _) =>
    case Let(name, init) => if !ctx.global { VisitLetBalanced(host, name, init, ctx, st); }
    case Block(letters, reals) =>
      VisitBlockNeutral(host, letters, reals, ctx, st);
      NeutralIsBalanced(ctx, st, r);
    case Return(e) =>
      VisitReturnNeutral(host, e, ctx, st);
      NeutralIsBalanced(ctx, st, r);
    case Break =>
    case Continue =>
    case If(condition, thn, els) =>
      VisitIfNeutral(host, condition, thn, els, ctx, st);
      NeutralIsBalanced(ctx, st, r);
    case While(condition, loop) =>
      VisitWhileNeutral(host, condition, loop, ctx, st);
      NeutralIsBalanced(ctx, st, r);
    case Declare(sub) => if !ctx.global { DeclareSubBalanced(ctx, st, sub); }
  }

  // ----- main results

  ghost predicate AtRest(st: State) {
    |st.scope| == 1 && |st.subScope| == 1 && st.stack == [] && SubsAliasFree(st.subScope)
  }

  lemma AtRestIsSound(st: State)
    requires AtRest(st)
    ensures Sound(st) && Nested(GLOBAL, st)
  {}

  /** A call made by the application, between programs or from inside a block's
      callback with any scopes open, leaves every scope and the height of the
      memory stack as they were, whatever it does and however it ends. */
  lemma PreparedCallIsNeutral(host: Host, callee: string, args: seq<Expr>, st: State)
    requires Nested(GLOBAL, st) && Sound(st)
    ensures var r := Eval(host, Call(callee, args), GLOBAL, st, true).reply;
            && Neutral(st, r) && Nested(GLOBAL, r.st)
            && (AtRest(st) ==> AtRest(r.st))
  {
    EvalNeutral(host, Call(callee, args), GLOBAL, st, true);
  }

  lemma {:induction false} SecondPassBalanced(host: Host, program: seq<Stmt>, ctx: Context, st: State)
    requires GlobalAliasesOnly(program) && ctx.global && !ctx.live && AtRest(st)
    ensures Nested(ctx, st)
    ensures var r := SecondPass(host, program, ctx, st);
            r.exc != Some(Terminated) && AtRest(r.st) && r.st.scope == st.scope
    decreases |program|
  {
    if program != [] {
      AtRestIsSound(st);
      ExecuteBalanced(host, program[0], ctx, st);
      var r := Execute(host, program[0], ctx, st);
      assert Framed(r.st.scope, |r.st.stack|);
      if r.exc.None? {
        SecondPassBalanced(host, program[1..], r.ctx, r.st);
      }
    }
  }

  /** The first pass declares globals only: no local scope, no stack cell. */
  lemma {:induction false} FirstPassAtRest(host: Host, program: seq<Stmt>, ctx: Context, st: State)
    requires GlobalAliasesOnly(program) && ctx.global && !ctx.live && AtRest(st)
    ensures Nested(ctx, st)
    ensures var r := FirstPass(host, program, ctx, st);
            r.exc != Some(Terminated) && AtRest(r.st) && st.scope[0].Keys <= r.st.scope[0].Keys
    decreases |program|
  {
    if program != [] && st.budget > 0 {
      var i := Notify(host, ctx, st.(budget := st.budget - 1), Interrupt);
      if i.exc.None? {
        FirstPassStatementAtRest(host, program[0], i.ctx, i.st);
        var r := FirstPassStatement(host, program[0], i.ctx, i.st);
        if r.exc.None? {
          FirstPassAtRest(host, program[1..], r.ctx, r.st);
        }
      }
    }
  }

  lemma FirstPassStatementAtRest(host: Host, s: Stmt, ctx: Context, st: State)
    requires ctx.global && !ctx.live && AtRest(st) && AliasesOutside(s)
    ensures Nested(ctx, st)
    ensures var r := FirstPassStatement(host, s, ctx, st);
            r.exc != Some(Terminated) && AtRest(r.st) && st.scope[0].Keys <= r.st.scope[0].Keys
  {
    match s
    case Alias(_, target) => EvalNeutral(host, target, ctx, st, true);
    case Let(_, init) => if init.Some? { EvalNeutral(host, init.value, ctx, st, true); }
    case Declare(sub) =>
    case _ =>
  }

  /** Whole programs: for every host, every statement budget and every way the
      run ends, both passes leave one scope and an empty memory stack. */
  lemma ProgramIsBalanced(host: Host, program: seq<Stmt>, st: State)
    requires GlobalAliasesOnly(program) && AtRest(st)
    ensures Nested(GLOBAL, st)
    ensures var first := FirstPass(host, program, GLOBAL, st);
            && first.exc != Some(Terminated) && AtRest(first.st) && Nested(GLOBAL, first.st)
            && var second := SecondPass(host, program, GLOBAL, first.st);
               second.exc != Some(Terminated) && AtRest(second.st) && second.st.scope == first.st.scope
  {
    FirstPassAtRest(host, program, GLOBAL, st);
    SecondPassBalanced(host, program, GLOBAL, FirstPass(host, program, GLOBAL, st).st);
  }

  /** An entry of a local scope names a cell below the height of its scope. */
  lemma {:induction false} LocalCell(scope: seq<Frame>, height: int, i: nat, name: string) returns (c: nat)
    requires Framed(scope, height) && 1 <= i < |scope| && name in scope[i]
    ensures c < height && scope[i][name] == StackAddress(c)
    decreases |scope|
  {
    var n := |scope| - 1;
    assert FrameOk(scope[n], height - |scope[n]|, height);
    if i == n {
      c :| height - |scope[n]| <= c < height && scope[i][name] == StackAddress(c);
    } else {
      hide FrameOk;
      c := LocalCell(scope[..n], height - |scope[n]|, i, name);
    }
  }

  /** Locals are live: an entry of any local scope names a cell the stack has. */
  lemma LocalsAreLive(st: State, i: nat, name: string)
    requires Framed(st.scope, |st.stack|) && 1 <= i < |st.scope| && name in st.scope[i]
    ensures ReadCell(st, st.scope[i][name]).Ok?
    ensures exists c: nat | c < |st.stack| :: st.scope[i][name] == StackAddress(c)
  {
    var c := LocalCell(st.scope, |st.stack|, i, name);
    hide Framed;
  }

  ghost function LocalEntries(scope: seq<Frame>): nat {
    if |scope| <= 1 then 0 else |Last(scope)| + LocalEntries(scope[..|scope| - 1])
  }

  /** In every sound state the stack has one cell per entry of the local scopes. */
  lemma {:induction false} StackHeightIsLocalEntries(scope: seq<Frame>, height: int)
    requires Framed(scope, height)
    ensures height == LocalEntries(scope)
  {
    if |scope| > 1 {
      StackHeightIsLocalEntries(scope[..|scope| - 1], height - |Last(scope)|);
    }
  }

  /** A while statement never leaks a break or continue to its parent. */
  lemma {:induction false} WhileContainsActions(host: Host, condition: Expr, loop: Stmt, ctx: Context, st: State)
    requires Nested(ctx, st)
    ensures var r := VisitWhile(host, condition, loop, ctx, st);
            r.ctx.action == ctx.action || r.ctx.action == RETURN
    decreases st.budget
  {
    var (r, again) := WhileStep(host, condition, loop, ctx, st);
    if again {
      WhileContainsActions(host, condition, loop, r.ctx, r.st);
    }
  }
}
