/** The laws of NGC statements and calls: which branch runs, how a loop unrolls,
    what an action ends, what a call gives back. They speak of visits alone. */
module NgcLaws {
  import opened Text
  import opened Doubles
  import opened NgcSyntax
  import opened NgcSemantics
  import opened NgcDiscipline

  // ----- a statement in a scope of its own

  /** `after` is what running `s` in a scope of its own, from where `before`
      ended, leaves: its data, clock, budget, exception, action and returned
      value; and, unless aliases spoil the scope, the caller's scopes and cells
      with everything it declared gone. */
  ghost predicate RanInOwnScope(host: Host, s: Stmt, before: Reply, after: Reply)
    requires Nested(before.ctx, before.st)
  {
    var inner := Execute(host, s, LOCAL, before.st);
    && after.st.data == inner.st.data && after.st.clock == inner.st.clock && after.st.budget == inner.st.budget
    && (after.exc == inner.exc || after.exc == Some(Terminated))
    && after.ctx.live == before.ctx.live && after.ctx.global == before.ctx.global
    && after.ctx.action == (if inner.exc.Some? then before.ctx.action else inner.ctx.action)
    && after.ctx.result ==
         (if inner.exc.None? && inner.ctx.action == RETURN then inner.ctx.result else before.ctx.result)
    && (Sound(before.st) && AliasFree(s) ==> after.exc == inner.exc && Restored(before.st, inner.st, after.st))
  }

  /** The scopes and cells of `before` are back, with the values they have in `inner`. */
  ghost predicate Restored(before: State, inner: State, after: State) {
    && after.scope == before.scope
    && |before.subScope| <= |inner.subScope| && after.subScope == inner.subScope[..|before.subScope|]
    && |before.stack| <= |inner.stack| && after.stack == inner.stack[..|before.stack|]
  }

  lemma CloseRestores(inner: Context, before: State, st: State)
    requires Nested(inner, st) && Sound(st) && Sound(before)
    requires Below(inner, st) == before.scope && Depth(inner, st) == |before.subScope|
    ensures Close(inner, st).Some? && Restored(before, st, Close(inner, st).value)
  {
    CloseBalanced(inner, st);
    var closed := Close(inner, st).value;
    HeightIsDetermined(before.scope, |before.stack|, |closed.stack|);
    assert closed.subScope == st.subScope[..|before.subScope|];
    assert closed.stack == st.stack[..|before.stack|];
  }

  lemma ExecuteRestores(host: Host, s: Stmt, before: State)
    requires |before.scope| == |before.subScope| >= 1 && Sound(before) && AliasFree(s)
    ensures var inner := Execute(host, s, LOCAL, before);
            && inner.exc != Some(Terminated) && Nested(inner.ctx, inner.st)
            && Close(inner.ctx, inner.st).Some? && Restored(before, inner.st, Close(inner.ctx, inner.st).value)
  {
    hide Execute, AliasFree, Sound;
    ExecuteBalanced(host, s, LOCAL, before);
    var inner := Execute(host, s, LOCAL, before);
    CloseRestores(inner.ctx, before, inner.st);
  }

  lemma BranchRanInOwnScope(host: Host, s: Stmt, ctx: Context, st: State)
    requires Nested(ctx, st)
    ensures RanInOwnScope(host, s, Reply(ctx, st, None), RunBranch(host, s, ctx, st))
  {
    hide Execute, Sound, AliasFree, Restored;
    if Sound(st) && AliasFree(s) { ExecuteRestores(host, s, st); }
  }

  // ----- if

  /** An `if` whose condition ends normally runs its body in a scope of its own
      when the condition is not zero, else its `else`, else nothing; one whose
      condition throws ends with that. */
  lemma IfRunsOneBranch(host: Host, condition: Expr, thn: Stmt, els: Option<Stmt>, ctx: Context, st: State)
    requires Nested(ctx, st)
    ensures var c := Eval(host, condition, ctx, st, true);
            var r := VisitStmt(host, If(condition, thn, els), ctx, st);
            if c.reply.exc.Some? then r == c.reply
            else if c.value != Finite(0.0) then RanInOwnScope(host, thn, c.reply, r)
            else if els.Some? then RanInOwnScope(host, els.value, c.reply, r)
            else r == c.reply
  {
    hide Eval, RunBranch, RanInOwnScope, Execute, Sound;
    var c := Eval(host, condition, ctx, st, true);
    IfIsChoice(host, condition, thn, els, ctx, st);
    if c.reply.exc.None? {
      if c.value != Finite(0.0) {
        BranchRanInOwnScope(host, thn, c.reply.ctx, c.reply.st);
      } else if els.Some? {
        BranchRanInOwnScope(host, els.value, c.reply.ctx, c.reply.st);
      }
    }
  }

  lemma IfIsChoice(host: Host, condition: Expr, thn: Stmt, els: Option<Stmt>, ctx: Context, st: State)
    requires Nested(ctx, st)
    ensures var c := Eval(host, condition, ctx, st, true);
            var r := VisitStmt(host, If(condition, thn, els), ctx, st);
            if c.reply.exc.Some? then r == c.reply
            else if c.value != Finite(0.0) then r == RunBranch(host, thn, c.reply.ctx, c.reply.st)
            else if els.Some? then r == RunBranch(host, els.value, c.reply.ctx, c.reply.st)
            else r == c.reply
  {
    hide Eval, RunBranch;
    assert VisitStmt(host, If(condition, thn, els), ctx, st) == VisitIf(host, condition, thn, els, ctx, st);
  }

  // ----- while

  /** `while c s` is `if c s`, followed by `while c s` again unless the condition
      was zero, an exception or a return ended it, or a break did. */
  lemma WhileIsIteratedIf(host: Host, condition: Expr, loop: Stmt, ctx: Context, st: State)
    requires Nested(ctx, st)
    ensures var c := Eval(host, condition, ctx, st, true);
            var once := VisitStmt(host, If(condition, loop, None), ctx, st);
            var all := VisitStmt(host, While(condition, loop), ctx, st);
            if once.exc == Some(Terminated) then all.exc == once.exc && all.st == once.st
            else if once.exc.Some? || c.value == Finite(0.0) || once.ctx.action == RETURN then all == once
            else if once.ctx.action == BREAK then all == once.(ctx := once.ctx.(action := ctx.action))
            else Nested(once.ctx, once.st)
                 && all == VisitStmt(host, While(condition, loop), once.ctx.(action := ctx.action), once.st)
  {
    hide Eval, RunBranch, RunLoop;
    var c := Eval(host, condition, ctx, st, true);
    IfIsChoice(host, condition, loop, None, ctx, st);
    WhileUnrolls(host, condition, loop, ctx, st);
    if c.reply.exc.None? && c.value != Finite(0.0) {
      TurnIsBranch(host, loop, c.reply.ctx, c.reply.st);
      var once := RunBranch(host, loop, c.reply.ctx, c.reply.st);
      if once.exc.None? && once.ctx.action != RETURN && once.ctx.action != BREAK {
        WhileIsVisited(host, condition, loop, c.reply.ctx, once.st);
      }
    }
  }

  lemma WhileIsVisited(host: Host, condition: Expr, loop: Stmt, ctx: Context, st: State)
    requires Nested(ctx, st)
    ensures VisitStmt(host, While(condition, loop), ctx, st) == VisitWhile(host, condition, loop, ctx, st)
  {}

  lemma WhileUnrolls(host: Host, condition: Expr, loop: Stmt, ctx: Context, st: State)
    requires Nested(ctx, st)
    ensures var c := Eval(host, condition, ctx, st, true);
            var all := VisitStmt(host, While(condition, loop), ctx, st);
            if c.reply.exc.Some? || c.value == Finite(0.0) then all == c.reply
            else
              var (turn, again) := RunLoop(host, loop, c.reply.ctx, c.reply.st);
              if again then all == VisitWhile(host, condition, loop, turn.ctx, turn.st) else all == turn
  {
    hide Eval, RunLoop;
    WhileIsVisited(host, condition, loop, ctx, st);
  }

  lemma TurnIsBranch(host: Host, loop: Stmt, ctx: Context, st: State)
    requires Nested(ctx, st)
    ensures var (turn, again) := RunLoop(host, loop, ctx, st);
            var once := RunBranch(host, loop, ctx, st);
            if once.exc == Some(Terminated) then !again && turn.exc == once.exc && turn.st == once.st
            else if once.exc.Some? || once.ctx.action == RETURN then !again && turn == once
            else
              && turn == once.(ctx := once.ctx.(action := ctx.action)) && turn.ctx == ctx
              && (again <==> once.ctx.action != BREAK)
  {
    hide Execute;
  }

  // ----- sequences, actions

  /** A block of statements is its parts one after the other; an exception or
      an action in the first part skips the second. */
  lemma {:induction false} CompoundSplits(host: Host, a: seq<Stmt>, b: seq<Stmt>, ctx: Context, st: State)
    requires Nested(ctx, st) && ctx.action == NONE
    ensures var first := VisitStmt(host, Compound(a), ctx, st);
            var both := VisitStmt(host, Compound(a + b), ctx, st);
            if first.exc.Some? || first.ctx.action != NONE then both == first
            else Nested(first.ctx, first.st) && both == VisitStmt(host, Compound(b), first.ctx, first.st)
  {
    hide RunCompound;
    CompoundIsRun(host, a, ctx, st);
    CompoundIsRun(host, a + b, ctx, st);
    RunSplits(host, a, b, ctx, st);
    var first := RunCompound(host, a, ctx, st);
    if first.exc.None? && first.ctx.action == NONE { CompoundIsRun(host, b, first.ctx, first.st); }
  }

  lemma CompoundIsRun(host: Host, body: seq<Stmt>, ctx: Context, st: State)
    requires Nested(ctx, st)
    ensures VisitStmt(host, Compound(body), ctx, st) == RunCompound(host, body, ctx, st)
  {}

  lemma {:induction false} RunSplits(host: Host, a: seq<Stmt>, b: seq<Stmt>, ctx: Context, st: State)
    requires Nested(ctx, st) && ctx.action == NONE
    ensures var first := RunCompound(host, a, ctx, st);
            if first.exc.Some? || first.ctx.action != NONE then RunCompound(host, a + b, ctx, st) == first
            else RunCompound(host, a + b, ctx, st) == RunCompound(host, b, first.ctx, first.st)
    decreases |a|
  {
    hide Execute;
    if a == [] {
      assert a + b == b;
    } else {
      assert (a + b)[0] == a[0] && (a + b)[1..] == a[1..] + b;
      var r := Execute(host, a[0], ctx, st);
      if r.exc.None? && r.ctx.action == NONE { RunSplits(host, a[1..], b, r.ctx, r.st); }
    }
  }

  /** `r` is what the statement leaves once the interrupt hook, which may stop
      the run, has been asked. */
  ghost predicate ExecuteAsks(host: Host, s: Stmt, ctx: Context, st: State, r: Reply)
    requires Nested(ctx, st)
  {
    if st.budget == 0 then r == Reply(ctx, st, Some(Thrown(Interrupted)))
    else
      var answer := host.respond(st.clock, Interrupt, st.data);
      var asked := st.(budget := st.budget - 1, clock := st.clock + 1, data := answer.data);
      if answer.throws then r == Reply(ctx, asked, Some(Thrown(HostFailure)))
      else r == VisitStmt(host, s, ctx, asked)
  }

  lemma ExecuteIsAsked(host: Host, s: Stmt, ctx: Context, st: State)
    requires Nested(ctx, st)
    ensures ExecuteAsks(host, s, ctx, st, Execute(host, s, ctx, st))
  {}

  /** A block of one statement: the interrupt hook first, then the statement. */
  lemma CompoundOfOne(host: Host, s: Stmt, ctx: Context, st: State)
    requires Nested(ctx, st)
    ensures ExecuteAsks(host, s, ctx, st, VisitStmt(host, Compound([s]), ctx, st))
  {
    CompoundIsRun(host, [s], ctx, st);
    ExecuteIsAsked(host, s, ctx, st);
    var r := Execute(host, s, ctx, st);
    hide Execute, VisitStmt, ExecuteAsks;
    assert [s][1..] == [];
    if r.exc.None? && r.ctx.action == NONE {
      assert RunCompound(host, [], r.ctx, r.st) == r;
    }
  }

  /** `return e` evaluates `e` and asks the enclosing call to end with it. */
  lemma ReturnReturns(host: Host, e: Expr, ctx: Context, st: State)
    requires Nested(ctx, st)
    ensures var v := Eval(host, e, ctx, st, true);
            VisitStmt(host, Return(e), ctx, st) ==
            if v.reply.exc.Some? then v.reply
            else Reply(Context(ctx.live, ctx.global, RETURN, v.value), v.reply.st, None)
  {
    hide Eval;
    assert VisitStmt(host, Return(e), ctx, st) == VisitReturn(host, e, ctx, st);
  }

  lemma BreakAndContinueAsk(host: Host, ctx: Context, st: State)
    requires Nested(ctx, st)
    ensures VisitStmt(host, Break, ctx, st) == Reply(Context(ctx.live, ctx.global, BREAK, ctx.result), st, None)
    ensures VisitStmt(host, Continue, ctx, st) == Reply(Context(ctx.live, ctx.global, CONTINUE, ctx.result), st, None)
  {}

  // ----- calls

  lemma {:induction false} BodyIsCompound(host: Host, body: seq<Stmt>, ctx: Context, st: State)
    requires Nested(ctx, st) && ctx.action == NONE
    ensures var r := RunCompound(host, body, ctx, st);
            r.exc.Some? || r.ctx.action == NONE || r.ctx.action == RETURN ==> RunBody(host, body, ctx, st) == r
    decreases |body|
  {
    hide Execute;
    if body != [] {
      var r := Execute(host, body[0], ctx, st);
      if r.exc.None? && r.ctx.action == NONE { BodyIsCompound(host, body[1..], r.ctx, r.st); }
    }
  }

  /** `after` is what a call leaves: the statements of the body as one block, run
      in the scope of the parameters; the value is the one returned, or without
      a `return` whatever binding the arguments left. */
  ghost predicate CalledBody(host: Host, sub: Sub, before: Bound, st: State, after: Reply)
    requires before.reply.exc.None? && Nested(before.inner, before.reply.st)
  {
    var body := VisitStmt(host, Compound(sub.body), before.inner, before.reply.st);
    && after.st.data == body.st.data && after.st.clock == body.st.clock && after.st.budget == body.st.budget
    && (after.exc == body.exc || after.exc == Some(Terminated))
    && after.ctx == before.reply.ctx.(result :=
         if body.exc.None? && body.ctx.action == RETURN then body.ctx.result else before.reply.ctx.result)
    && (Sound(st) && AliasFreeSub(sub) ==> after.exc == body.exc && Restored(st, body.st, after.st))
  }

  /** A call binds its arguments, runs the body of the subroutine it finds and
      gives back what that returns, with the caller's scopes and cells as they
      were; a `break` or `continue` outside any loop of the body aside. */
  lemma CallRunsBody(host: Host, callee: string, args: seq<Expr>, sub: Sub, ctx: Context, st: State)
    requires Nested(ctx, st) && callee != "print" && callee != "alert"
    requires FindSub(st.subScope, Signature(callee, |args|)) == Some(sub) && |sub.params| == |args|
    ensures var b := BindArgs(host, args, sub.params, ctx.(result := Finite(0.0)), LOCAL, st);
            var r := VisitExpr(host, Call(callee, args), ctx, st);
            if b.reply.exc.Some? then
              && r.ctx == b.reply.ctx && r.st.data == b.reply.st.data && r.st.clock == b.reply.st.clock
              && (r.exc == b.reply.exc || r.exc == Some(Terminated))
            else
              var body := VisitStmt(host, Compound(sub.body), b.inner, b.reply.st);
              body.exc.Some? || body.ctx.action == NONE || body.ctx.action == RETURN ==> CalledBody(host, sub, b, st, r)
  {
    hide BindArgs, RunBody, RunCompound, Sound, AliasFreeSub, Restored;
    var cleared := ctx.(result := Finite(0.0));
    assert VisitExpr(host, Call(callee, args), ctx, st) == VisitCall(host, callee, args, ctx, st);
    assert VisitCall(host, callee, args, ctx, st) == CallSub(host, sub, args, cleared, st);
    var b := BindArgs(host, args, sub.params, cleared, LOCAL, st);
    if b.reply.exc.None? {
      CompoundIsRun(host, sub.body, b.inner, b.reply.st);
      hide VisitStmt, VisitExpr, VisitCall;
      BodyIsCompound(host, sub.body, b.inner, b.reply.st);
      if Sound(st) && AliasFreeSub(sub) {
        CallRestores(host, args, sub, cleared, st);
      }
    }
  }

  lemma CallRestores(host: Host, args: seq<Expr>, sub: Sub, ctx: Context, st: State)
    requires Nested(ctx, st) && |sub.params| == |args| && Sound(st) && AliasFreeSub(sub)
    requires BindArgs(host, args, sub.params, ctx, LOCAL, st).reply.exc.None?
    ensures var b := BindArgs(host, args, sub.params, ctx, LOCAL, st);
            var body := RunBody(host, sub.body, b.inner, b.reply.st);
            && body.exc != Some(Terminated) && Nested(body.ctx, body.st)
            && Close(body.ctx, body.st).Some? && Restored(st, body.st, Close(body.ctx, body.st).value)
  {
    var b := BindArgs(host, args, sub.params, ctx, LOCAL, st);
    BindArgsBalanced(host, args, sub.params, ctx, LOCAL, st);
    hide BindArgs, RunBody, Sound;
    RunBodyBalanced(host, sub.body, b.inner, b.reply.st);
    var body := RunBody(host, sub.body, b.inner, b.reply.st);
    CloseRestores(body.ctx, st, body.st);
  }

  /** A call of a name and number of arguments nothing in scope was declared
      with throws before it evaluates anything. */
  lemma UndefinedCallThrows(host: Host, callee: string, args: seq<Expr>, ctx: Context, st: State)
    requires Nested(ctx, st) && callee != "print" && callee != "alert"
    requires FindSub(st.subScope, Signature(callee, |args|)).None?
    ensures var r := VisitExpr(host, Call(callee, args), ctx, st);
            r.exc == Some(Thrown(UndefinedSub)) && r.st == st && r.ctx == ctx.(result := Finite(0.0))
  {
    hide CallSub, CallPrint;
    assert VisitExpr(host, Call(callee, args), ctx, st) == VisitCall(host, callee, args, ctx, st);
  }

  // ----- memory and names

  /** A cell that was written reads the value back; every other cell reads as
      before, and nothing else of the state changed. */
  lemma WriteThenRead(st: State, address: nat, value: Number, other: nat)
    requires WriteCell(st, address, value).Ok?
    ensures var after := WriteCell(st, address, value).value;
            && (ReadCell(st, address).Ok? ==> ReadCell(after, address) == Ok(value))
            && (other != address ==> ReadCell(after, other) == ReadCell(st, other))
            && after == st.(data := after.data, stack := after.stack)
            && |after.data| == |st.data| && |after.stack| == |st.stack|
  {}

  /** Frame `k` is the innermost one that has the name. */
  ghost predicate Innermost(scope: seq<Frame>, name: string, k: nat) {
    k < |scope| && name in scope[k] && forall j | k < j < |scope| :: name !in scope[j]
  }

  lemma {:induction false} LookupIsInnermost(scope: seq<Frame>, name: string)
    ensures forall k: nat | Innermost(scope, name, k) :: Lookup(scope, name) == scope[k][name]
    ensures (forall k: nat :: !Innermost(scope, name, k)) ==> Lookup(scope, name) == 0
    ensures (exists k: nat :: Innermost(scope, name, k)) <==> exists k | 0 <= k < |scope| :: name in scope[k]
  {
    if scope != [] {
      var n := |scope| - 1;
      var below := scope[..n];
      LookupIsInnermost(below, name);
      if name in scope[n] {
        assert Innermost(scope, name, n);
      } else {
        forall k: nat ensures Innermost(scope, name, k) <==> Innermost(below, name, k) {
          if Innermost(below, name, k) {
            forall j | k < j < |scope| ensures name !in scope[j] { assert j < n ==> scope[j] == below[j]; }
          }
          if Innermost(scope, name, k) {
            forall j | k < j < |below| ensures name !in below[j] { assert scope[j] == below[j]; }
          }
        }
        if k :| 0 <= k < |scope| && name in scope[k] {
          assert below[k] == scope[k];
        }
      }
    }
  }

  /** Assigning to a variable whose cell can be read and written: the variable
      reads the value back, every other cell reads what it read once the value
      was known, and the assignment has that value. */
  lemma AssignmentReadsBack(host: Host, name: string, e: Expr, ctx: Context, st: State, other: nat)
    requires Nested(ctx, st) && 0 < Lookup(st.scope, name) < ADDRESS_LIMIT
    ensures var address := Lookup(st.scope, name);
            var v := Eval(host, e, ctx.(result := Finite(address as real)), st, true);
            var r := VisitExpr(host, Binary(ASSIGN, Named(name), e), ctx, st);
            if v.reply.exc.Some? then r == v.reply
            else
              && (r.exc.None? <==> WriteCell(v.reply.st, address, v.value).Ok?)
              && (r.exc.Some? ==> r.st == v.reply.st)
              && (r.exc.None? ==>
                    && r.ctx.result == v.value
                    && r.st == v.reply.st.(data := r.st.data, stack := r.st.stack)
                    && (ReadCell(v.reply.st, address).Ok? ==> ReadCell(r.st, address) == Ok(v.value))
                    && (other != address ==> ReadCell(r.st, other) == ReadCell(v.reply.st, other)))
  {
    var address := Lookup(st.scope, name);
    hide Lookup;
    AssignmentWrites(host, name, e, ctx, st);
    hide VisitExpr, Eval;
    var v := Eval(host, e, ctx.(result := Finite(address as real)), st, true);
    if v.reply.exc.None? && WriteCell(v.reply.st, address, v.value).Ok? {
      WriteThenRead(v.reply.st, address, v.value, other);
    }
  }

  lemma AssignmentWrites(host: Host, name: string, e: Expr, ctx: Context, st: State)
    requires Nested(ctx, st) && 0 < Lookup(st.scope, name) < ADDRESS_LIMIT
    ensures var address := Lookup(st.scope, name);
            var v := Eval(host, e, ctx.(result := Finite(address as real)), st, true);
            var r := VisitExpr(host, Binary(ASSIGN, Named(name), e), ctx, st);
            if v.reply.exc.Some? then r == v.reply
            else match WriteCell(v.reply.st, address, v.value)
                 case Ok(written) => r == Reply(v.reply.ctx.(result := v.value), written, None)
                 case Err(x) => r == Reply(v.reply.ctx, v.reply.st, Some(Thrown(x)))
  {
    var address := Lookup(st.scope, name);
    hide Lookup, WriteCell;
    var target := ctx.(result := Finite(address as real));
    assert VisitExpr(host, Named(name), ctx, st) == Reply(target, st, None);
    assert Eval(host, Named(name), ctx, st, false) == Evaluated(Reply(target, st, None), Finite(address as real));
    assert ToAddress(Finite(address as real)) == Ok(address);
    hide Eval;
    assert EvalPair(host, ASSIGN, Named(name), e, ctx, st) == (Finite(address as real), Eval(host, e, target, st, true));
    hide EvalPair;
    assert VisitExpr(host, Binary(ASSIGN, Named(name), e), ctx, st) == VisitBinary(host, ASSIGN, Named(name), e, ctx, st);
  }

  /** A local `let` gives the name a fresh cell with the value, hides whatever
      the name meant, and moves no other name and no other cell. */
  lemma LetDeclares(host: Host, name: string, init: Option<Expr>, ctx: Context, st: State, other: string, address: nat)
    requires Nested(ctx, st) && !ctx.global && |st.scope| + (if ctx.live then 0 else 1) >= 2
    requires VisitStmt(host, Let(name, init), ctx, st).exc.None?
    ensures var r := VisitStmt(host, Let(name, init), ctx, st);
            var v := if init.Some? then Eval(host, init.value, ctx, st, true) else Evaluated(Reply(ctx, st, None), Finite(0.0));
            && v.reply.exc.None? && r.ctx.live
            && Lookup(r.st.scope, name) == StackAddress(|v.reply.st.stack|)
            && r.st.stack == v.reply.st.stack + [v.value]
            && (other != name ==> Lookup(r.st.scope, other) == Lookup(v.reply.st.scope, other))
            && r.st.data == v.reply.st.data
            && (address < ADDR_STACK + |v.reply.st.stack| ==> ReadCell(r.st, address) == ReadCell(v.reply.st, address))
            && (|v.reply.st.stack| < ADDR_STACK ==> ReadCell(r.st, Lookup(r.st.scope, name)) == Ok(v.value))
  {
    assert VisitStmt(host, Let(name, init), ctx, st) == VisitLet(host, name, init, ctx, st);
    hide VisitStmt, Eval;
    var v := EvalInit(host, init, ctx, st);
    hide EvalInit;
    assert v.reply.exc.None?;
    DeclareLooksUp(v.reply.ctx, v.reply.st, name, v.value, other);
  }

  lemma DeclareLooksUp(ctx: Context, st: State, name: string, value: Number, other: string)
    requires Nested(ctx, st) && !ctx.global && |st.scope| + (if ctx.live then 0 else 1) >= 2
    requires Allocate(ctx, st, name, value).exc.None?
    ensures var r := Allocate(ctx, st, name, value);
            && r.ctx.live && r.st.stack == st.stack + [value] && r.st.data == st.data
            && Lookup(r.st.scope, name) == StackAddress(|st.stack|)
            && (other != name ==> Lookup(r.st.scope, other) == Lookup(st.scope, other))
  {
    var r := Allocate(ctx, st, name, value);
    var under := if ctx.live then st else Open(st);
    assert r.st.scope[..|r.st.scope| - 1] == under.scope[..|under.scope| - 1];
    if !ctx.live { assert under.scope[..|under.scope| - 1] == st.scope; }
  }

  /** Declaring a subroutine makes its signature find it, and no other. */
  lemma DeclaredSubIsFound(host: Host, sub: Sub, ctx: Context, st: State, other: Signature)
    requires Nested(ctx, st) && !ctx.global
    ensures var r := VisitStmt(host, Declare(sub), ctx, st);
            && (r.exc.Some? <==> SignatureOf(sub) in Last(st.subScope))
            && (r.exc.None? ==>
                  && FindSub(r.st.subScope, SignatureOf(sub)) == Some(sub)
                  && (other != SignatureOf(sub) ==> FindSub(r.st.subScope, other) == FindSub(st.subScope, other))
                  && r == Reply(ctx, st.(subScope := r.st.subScope), None))
            && (r.exc.Some? ==> r == Reply(ctx, st, Some(Thrown(RedeclaredSub))))
  {
    var r := VisitStmt(host, Declare(sub), ctx, st);
    assert r == DeclareSub(ctx, st, sub);
    var n := |st.subScope| - 1;
    if r.exc.None? {
      assert r.st.subScope[..n] == st.subScope[..n];
    }
  }

  // ----- the two passes

  /** What the first pass does of one statement: a `let` gives the name a new
      data cell with the value, an `alias` the address its target denotes, or a
      new cell holding 0 when that is 0; a subroutine is declared; everything
      else waits for the second pass. A name is declared once. */
  ghost predicate DeclaredFirst(host: Host, s: Stmt, ctx: Context, st: State, r: Reply)
    requires Nested(ctx, st)
  {
    match s
    case Let(name, init) =>
      var v := if init.Some? then Eval(host, init.value, ctx, st, true) else Evaluated(Reply(ctx, st, None), Finite(0.0));
      if v.reply.exc.Some? then r == v.reply else NewGlobal(v.reply, name, 0, v.value, r)
    case Alias(name, target) =>
      var v := Eval(host, target, ctx, st, true);
      if v.reply.exc.Some? then r == v.reply
      else (match ToAddress(v.value)
            case Err(x) => r == v.reply.(exc := Some(Thrown(x)))
            case Ok(address) => NewGlobal(v.reply, name, address, Finite(0.0), r))
    case Declare(sub) =>
      if SignatureOf(sub) in Last(st.subScope) then r == Reply(ctx, st, Some(Thrown(RedeclaredSub)))
      else
        && r == Reply(ctx, st.(subScope := r.st.subScope), None)
        && FindSub(r.st.subScope, SignatureOf(sub)) == Some(sub)
        && forall other | other != SignatureOf(sub) :: FindSub(r.st.subScope, other) == FindSub(st.subScope, other)
    case _ => r == Reply(ctx, st, None)
  }

  ghost predicate NewGlobal(before: Reply, name: string, address: nat, value: Number, r: Reply)
    requires before.st.scope != []
  {
    if name in Last(before.st.scope) then r == Reply(before.ctx, before.st, Some(Thrown(RedeclaredGlobal)))
    else
      && r == Reply(before.ctx, before.st.(scope := r.st.scope, data := r.st.data), None)
      && Lookup(r.st.scope, name) == (if address == 0 then |before.st.data| else address)
      && (forall other | other != name :: Lookup(r.st.scope, other) == Lookup(before.st.scope, other))
      && r.st.data == before.st.data + if address == 0 then [Cell(value, true, true)] else []
  }

  lemma DeclareGlobalIsNew(before: Reply, name: string, address: nat, value: Number)
    requires before.st.scope != []
    ensures NewGlobal(before, name, address, value, DeclareGlobal(before.ctx, before.st, name, address, value))
  {
    var r := DeclareGlobal(before.ctx, before.st, name, address, value);
    assert r.exc.None? ==> r.st.scope[..|r.st.scope| - 1] == before.st.scope[..|before.st.scope| - 1];
  }

  lemma FirstPassDeclares(host: Host, s: Stmt, ctx: Context, st: State)
    requires Nested(ctx, st)
    ensures DeclaredFirst(host, s, ctx, st, FirstPassStatement(host, s, ctx, st))
  {
    hide Eval, NewGlobal, Lookup;
    match s
    case Let(name, init) =>
      var v := EvalInit(host, init, ctx, st);
      if v.reply.exc.None? { DeclareGlobalIsNew(v.reply, name, 0, v.value); }
    case Alias(name, target) =>
      var v := Eval(host, target, ctx, st, true);
      if v.reply.exc.None? && ToAddress(v.value).Ok? {
        DeclareGlobalIsNew(v.reply, name, ToAddress(v.value).value, Finite(0.0));
      }
    case Declare(sub) =>
      var r := DeclareSub(ctx, st, sub);
      assert r.exc.None? ==> r.st.subScope[..|r.st.subScope| - 1] == st.subScope[..|st.subScope| - 1];
    case _ =>
  }

  /** Either pass over a program is the pass over its first part, then, unless
      that threw, over the rest. */
  lemma {:induction false} PassesSplit(host: Host, a: seq<Stmt>, b: seq<Stmt>, ctx: Context, st: State)
    requires Nested(ctx, st)
    ensures var first := FirstPass(host, a, ctx, st);
            FirstPass(host, a + b, ctx, st) ==
            if first.exc.Some? then first else FirstPass(host, b, first.ctx, first.st)
    ensures var first := SecondPass(host, a, ctx, st);
            SecondPass(host, a + b, ctx, st) ==
            if first.exc.Some? then first else SecondPass(host, b, first.ctx, first.st)
    decreases |a|
  {
    hide Execute, FirstPassStatement;
    if a == [] {
      assert a + b == b;
    } else {
      assert (a + b)[0] == a[0] && (a + b)[1..] == a[1..] + b;
      var r := Execute(host, a[0], ctx, st);
      if r.exc.None? { PassesSplit(host, a[1..], b, r.ctx, r.st); }
      if st.budget > 0 {
        var i := Notify(host, ctx, st.(budget := st.budget - 1), Interrupt);
        if i.exc.None? {
          var f := FirstPassStatement(host, a[0], i.ctx, i.st);
          if f.exc.None? { PassesSplit(host, a[1..], b, f.ctx, f.st); }
        }
      }
    }
  }

  ghost predicate FirstAsks(host: Host, s: Stmt, ctx: Context, st: State, r: Reply)
    requires Nested(ctx, st)
  {
    if st.budget == 0 then r == Reply(ctx, st, Some(Thrown(Interrupted)))
    else
      var answer := host.respond(st.clock, Interrupt, st.data);
      var asked := st.(budget := st.budget - 1, clock := st.clock + 1, data := answer.data);
      if answer.throws then r == Reply(ctx, asked, Some(Thrown(HostFailure)))
      else DeclaredFirst(host, s, ctx, asked, r)
  }

  /** The first pass asks the interrupt hook before each statement, then declares. */
  lemma FirstPassOfOne(host: Host, s: Stmt, ctx: Context, st: State)
    requires Nested(ctx, st)
    ensures FirstAsks(host, s, ctx, st, FirstPass(host, [s], ctx, st))
  {
    hide DeclaredFirst, FirstPassStatement;
    assert [s][1..] == [];
    if st.budget > 0 {
      var i := Notify(host, ctx, st.(budget := st.budget - 1), Interrupt);
      if i.exc.None? {
        FirstPassDeclares(host, s, ctx, i.st);
        var f := FirstPassStatement(host, s, ctx, i.st);
        if f.exc.None? { assert FirstPass(host, [], f.ctx, f.st) == f; }
      }
    }
  }

  /** The second pass asks the interrupt hook before each statement, then executes. */
  lemma SecondPassOfOne(host: Host, s: Stmt, ctx: Context, st: State)
    requires Nested(ctx, st)
    ensures ExecuteAsks(host, s, ctx, st, SecondPass(host, [s], ctx, st))
  {
    ExecuteIsAsked(host, s, ctx, st);
    var r := Execute(host, s, ctx, st);
    hide Execute, VisitStmt, ExecuteAsks;
    assert [s][1..] == [];
    if r.exc.None? { assert SecondPass(host, [], r.ctx, r.st) == r; }
  }
}
