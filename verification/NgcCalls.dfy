/** Where the evaluator departs from what a programmer would expect: aliases in
    a local context, arguments that meet the callee's parameters, and the value
    of a call that returns none. */
module NgcCalls {
  import opened Text
  import opened Doubles
  import opened NgcSyntax
  import opened NgcSemantics
  import opened NgcDiscipline

  // ----- the local alias

  /** The interrupt hook lets the next statement run. */
  ghost predicate Goes(host: Host, st: State) {
    st.budget > 0 && Notify(host, LOCAL, st.(budget := st.budget - 1), Interrupt).exc.None?
  }

  lemma AliasRuns(host: Host, name: string, target: Expr, ctx: Context, st: State)
    requires Nested(ctx, st) && !ctx.global && Goes(host, st)
    ensures var i := Notify(host, ctx, st.(budget := st.budget - 1), Interrupt);
            Execute(host, Alias(name, target), ctx, st) == BindAlias(Eval(host, target, ctx, i.st, true), name)
  {
    hide Eval, BindAlias;
    var i := Notify(host, ctx, st.(budget := st.budget - 1), Interrupt);
    assert Execute(host, Alias(name, target), ctx, st) == VisitStmt(host, Alias(name, target), ctx, i.st);
    assert VisitStmt(host, Alias(name, target), ctx, i.st) == VisitAlias(host, name, target, ctx, i.st);
  }

  /** One more entry in the innermost open frame, unless the name was there. */
  ghost predicate Aliased(name: string, ctx: Context, st: State, r: Reply)
    requires Nested(ctx, st)
  {
    && r.ctx == ctx.(result := r.ctx.result) && |r.st.stack| == |st.stack| && Nested(r.ctx, r.st)
    && |r.st.scope| == |st.scope| && r.st.scope[..|st.scope| - 1] == st.scope[..|st.scope| - 1]
    && SubsAliasFree(r.st.subScope)
    && (if name in Last(st.scope) then r.st.scope == st.scope
        else (Last(r.st.scope).Keys == Last(st.scope).Keys + {name}
              && |Last(r.st.scope)| == |Last(st.scope)| + 1))
  }

  /** What executing a local alias does to the scopes: one entry in the
      innermost open frame, whoever owns it, unless the name is there already. */
  lemma AliasBinds(host: Host, name: string, target: Expr, ctx: Context, st: State)
    requires Nested(ctx, st) && Sound(st) && !ctx.global
    requires Execute(host, Alias(name, target), ctx, st).exc.None?
    ensures Aliased(name, ctx, st, Execute(host, Alias(name, target), ctx, st))
  {
    hide Framed;
    var i := Notify(host, ctx, st.(budget := st.budget - 1), Interrupt);
    EvalNeutral(host, target, ctx, i.st, true);
    var v := Eval(host, target, ctx, i.st, true);
    AliasRuns(host, name, target, ctx, st);
    if name !in Last(st.scope) {
      var address := ToAddress(v.value).value;
      assert |Last(st.scope)[name := address]| == |Last(st.scope)| + 1;
    }
  }

  /** Exactly when a local alias spoils the scopes, whether or not its context
      has opened a scope of its own. Executed and then left, it gives back what
      was below its scope, with a matching stack, if and only if the name was
      already in the innermost open frame. Otherwise a context with a scope
      closes it one cell too far, or ends the process when there is none; a
      context without one leaves the name in a frame that is not its own: a
      local frame then no longer matches the stack, the global one keeps the name. */
  lemma LocalAliasSpoilsScopes(host: Host, name: string, target: Expr, ctx: Context, st: State, parent: Context)
    requires Nested(ctx, st) && Sound(st) && !ctx.global
    requires Execute(host, Alias(name, target), ctx, st).exc.None?
    ensures var r := Execute(host, Alias(name, target), ctx, st);
            var left := Leave(parent, r.ctx, r.st, None);
            && ((left.exc.None? && left.st.scope == Below(ctx, st) && Sound(left.st)) <==> name in Last(st.scope))
            && (name !in Last(st.scope) && ctx.live ==>
                  if |st.stack| == |Last(st.scope)| then left.exc == Some(Terminated)
                  else left.exc.None? && left.st.scope == Below(ctx, st)
                       && |left.st.stack| == |st.stack| - |Last(st.scope)| - 1)
            && (name !in Last(st.scope) && !ctx.live ==>
                  && left.exc.None? && name in Last(left.st.scope)
                  && left.st.scope[..|st.scope| - 1] == st.scope[..|st.scope| - 1]
                  && (Sound(left.st) <==> |st.scope| == 1))
  {
    AliasBinds(host, name, target, ctx, st);
    hide Execute, Framed;
    var r := Execute(host, Alias(name, target), ctx, st);
    if ctx.live {
      OwnScopeSpoilt(name, ctx, st, r, parent);
    } else {
      OthersScopeSpoilt(name, ctx, st, r, parent);
    }
  }

  lemma OwnScopeSpoilt(name: string, ctx: Context, st: State, r: Reply, parent: Context)
    requires Nested(ctx, st) && Sound(st) && ctx.live && Aliased(name, ctx, st, r)
    ensures var left := Leave(parent, r.ctx, r.st, None);
            && ((left.exc.None? && left.st.scope == Below(ctx, st) && Sound(left.st)) <==> name in Last(st.scope))
            && (name !in Last(st.scope) ==>
                  if |st.stack| == |Last(st.scope)| then left.exc == Some(Terminated)
                  else left.exc.None? && left.st.scope == Below(ctx, st)
                       && |left.st.stack| == |st.stack| - |Last(st.scope)| - 1)
  {
    var left := Leave(parent, r.ctx, r.st, None);
    var height := |st.stack| - |Last(st.scope)|;
    assert FrameOk(Last(st.scope), height, |st.stack|) && Framed(Below(ctx, st), height);
    if left.exc.None? && Sound(left.st) && left.st.scope == Below(ctx, st) {
      HeightIsDetermined(Below(ctx, st), height, |left.st.stack|);
    }
  }

  lemma OthersScopeSpoilt(name: string, ctx: Context, st: State, r: Reply, parent: Context)
    requires Nested(ctx, st) && Sound(st) && !ctx.live && Aliased(name, ctx, st, r)
    ensures var left := Leave(parent, r.ctx, r.st, None);
            && ((left.exc.None? && left.st.scope == Below(ctx, st) && Sound(left.st)) <==> name in Last(st.scope))
            && (name !in Last(st.scope) ==>
                  && left.exc.None? && name in Last(left.st.scope)
                  && left.st.scope[..|st.scope| - 1] == st.scope[..|st.scope| - 1]
                  && (Sound(left.st) <==> |st.scope| == 1))
  {
    var left := Leave(parent, r.ctx, r.st, None);
    assert left.st == r.st;
    if name !in Last(st.scope) {
      assert name in Last(r.st.scope).Keys;
      hide Framed, SubsAliasFree;
      if |st.scope| > 1 { LongerFrameIsUnsound(st, r.st); } else { GlobalFrameIsFree(st, r.st); }
    }
  }

  /** One entry more in the innermost local scope, without a cell. */
  lemma LongerFrameIsUnsound(before: State, after: State)
    requires Sound(before) && |after.scope| == |before.scope| > 1 && |after.stack| == |before.stack|
    requires after.scope[..|before.scope| - 1] == before.scope[..|before.scope| - 1]
    requires |Last(after.scope)| == |Last(before.scope)| + 1
    ensures !Sound(after)
  {
    hide FrameOk, SubsAliasFree;
    if Sound(after) {
      var n := |before.scope| - 1;
      HeightIsDetermined(before.scope[..n], |before.stack| - |Last(before.scope)|, |before.stack| - |Last(after.scope)|);
    }
  }

  lemma GlobalFrameIsFree(before: State, after: State)
    requires Sound(before) && |after.scope| == |before.scope| == 1 && |after.stack| == |before.stack|
    requires SubsAliasFree(after.subScope)
    ensures Sound(after)
  {}

  /** Between programs, with `sub` declared. */
  ghost predicate Declares(st: State, sub: Sub) {
    && |st.scope| == 1 && |st.subScope| == 1 && st.stack == []
    && SignatureOf(sub) in st.subScope[0] && st.subScope[0][SignatureOf(sub)] == sub
  }

  lemma CallRunsSub(host: Host, sub: Sub, args: seq<Expr>, st: State)
    requires Declares(st, sub) && |sub.params| == |args| && sub.name != "print" && sub.name != "alert"
    ensures var v := Eval(host, Call(sub.name, args), GLOBAL, st, true);
            && v.reply == CallSub(host, sub, args, GLOBAL, st)
            && (v.reply.exc.None? ==> v.value == v.reply.ctx.result)
  {
    hide CallSub;
    assert FindSub(st.subScope, Signature(sub.name, |args|)) == Some(sub);
    var r := VisitCall(host, sub.name, args, GLOBAL, st);
    assert Eval(host, Call(sub.name, args), GLOBAL, st, true).reply == VisitExpr(host, Call(sub.name, args), GLOBAL, st);
    assert VisitExpr(host, Call(sub.name, args), GLOBAL, st) == r;
  }

  lemma EvalLiteral(host: Host, value: Number, ctx: Context, st: State)
    requires Nested(ctx, st)
    ensures Eval(host, Literal(value), ctx, st, true) == Evaluated(Reply(ctx.(result := value), st, None), value)
  {}

  lemma BindOneOf(host: Host, arg: Expr, param: string, ctx: Context, inner: Context, st: State)
    requires Nested(ctx, st) && Nested(inner, st)
    ensures BindArgs(host, [arg], [param], ctx, inner, st) == BindOne(host, arg, param, ctx, inner, st)
  {
    hide BindOne;
    var b := BindOne(host, arg, param, ctx, inner, st);
    assert [arg][1..] == [] && [param][1..] == [];
    if b.reply.exc.None? {
      assert BindArgs(host, [], [], b.reply.ctx, b.inner, b.reply.st) == b;
    }
  }

  lemma RunOneOf(host: Host, s: Stmt, ctx: Context, st: State)
    requires Nested(ctx, st)
    ensures RunBody(host, [s], ctx, st) == Execute(host, s, ctx, st)
  {
    hide Execute;
    assert [s][1..] == [];
  }

  /** A run that loses the stack: a subroutine with one parameter and an alias ends the process. */
  lemma AliasTerminates(host: Host, st: State)
    requires Declares(st, Sub("f", ["p"], [Alias("q", Literal(Finite(5.0)))])) && Goes(host, st)
    ensures Eval(host, Call("f", [Literal(Finite(1.0))]), GLOBAL, st, true).reply.exc == Some(Terminated)
  {
    var sub := Sub("f", ["p"], [Alias("q", Literal(Finite(5.0)))]);
    var one := Literal(Finite(1.0));
    CallRunsSub(host, sub, [one], st);
    BindOneOf(host, one, "p", GLOBAL, LOCAL, st);
    EvalLiteral(host, Finite(1.0), GLOBAL, st);
    var b := BindOne(host, one, "p", GLOBAL, LOCAL, st);
    var bound := b.reply.st;
    assert bound.scope == st.scope + [map["p" := ADDR_STACK]] && bound.stack == [Finite(1.0)];
    RunOneOf(host, sub.body[0], b.inner, bound);
    AliasRuns(host, "q", Literal(Finite(5.0)), b.inner, bound);
    var i := Notify(host, b.inner, bound.(budget := bound.budget - 1), Interrupt);
    EvalLiteral(host, Finite(5.0), b.inner, i.st);
    assert ToAddress(Finite(5.0)) == Ok(5);
    var r := Execute(host, sub.body[0], b.inner, bound);
    assert Last(r.st.scope) == map["p" := ADDR_STACK, "q" := 5];
  }

  /** A run that leaves a name behind: a subroutine without parameters and with
      only an alias ends normally, and the name is a global afterwards. */
  lemma AliasBecomesGlobal(host: Host, st: State)
    requires Declares(st, Sub("g", [], [Alias("q", Literal(Finite(5.0)))])) && Goes(host, st) && "q" !in st.scope[0]
    ensures var r := Eval(host, Call("g", []), GLOBAL, st, true).reply;
            r.exc.None? && r.st.scope == [st.scope[0]["q" := 5]] && r.st.scope != st.scope
  {
    var sub := Sub("g", [], [Alias("q", Literal(Finite(5.0)))]);
    CallRunsSub(host, sub, [], st);
    assert BindArgs(host, [], sub.params, GLOBAL, LOCAL, st) == Bound(Reply(GLOBAL, st, None), LOCAL);
    RunOneOf(host, sub.body[0], LOCAL, st);
    AliasRuns(host, "q", Literal(Finite(5.0)), LOCAL, st);
    var i := Notify(host, LOCAL, st.(budget := st.budget - 1), Interrupt);
    EvalLiteral(host, Finite(5.0), LOCAL, i.st);
    assert ToAddress(Finite(5.0)) == Ok(5);
    var r := Execute(host, sub.body[0], LOCAL, st);
    assert "q" in r.st.scope[0];
  }

  // ----- the value of a call that does not return one

  /** A call binds its last argument after all the others. */
  lemma {:induction false} BindArgsEndsWithLast(
    host: Host, args: seq<Expr>, params: seq<string>, ctx: Context, inner: Context, st: State)
    requires |args| == |params| > 0 && Nested(ctx, st) && Nested(inner, st)
    ensures var n := |args| - 1;
            var front := BindArgs(host, args[..n], params[..n], ctx, inner, st);
            BindArgs(host, args, params, ctx, inner, st) ==
            if front.reply.exc.Some? then front
            else BindOne(host, args[n], params[n], front.reply.ctx, front.inner, front.reply.st)
    decreases |args|
  {
    hide BindOne;
    var n := |args| - 1;
    var b := BindOne(host, args[0], params[0], ctx, inner, st);
    if n == 0 {
      assert args == [args[0]] && params == [params[0]];
      BindOneOf(host, args[0], params[0], ctx, inner, st);
    } else if b.reply.exc.None? {
      BindArgsEndsWithLast(host, args[1..], params[1..], b.reply.ctx, b.inner, b.reply.st);
      assert args[..n][0] == args[0] && params[..n][0] == params[0];
      assert args[..n][1..] == args[1..][..n - 1] && params[..n][1..] == params[1..][..n - 1];
    }
  }

  /** What evaluating an expression leaves in the context: its value, but for a
      variable the address it was read from, which is never zero. */
  lemma EvalLeavesValueOrAddress(host: Host, e: Expr, ctx: Context, st: State)
    requires Nested(ctx, st) && Eval(host, e, ctx, st, true).reply.exc.None?
    ensures var v := Eval(host, e, ctx, st, true);
            if !IsVariable(e) then v.reply.ctx.result == v.value
            else
              && ToAddress(v.reply.ctx.result).Ok?
              && ReadCell(v.reply.st, ToAddress(v.reply.ctx.result).value) == Ok(v.value)
              && v.reply.ctx.result != Finite(0.0)
  {
    hide VisitExpr;
    assert ToAddress(Finite(0.0)) == Ok(0);
  }

  predicate IsBuiltIn(callee: string) { callee == "print" || callee == "alert" }

  /** The index of the last argument that is not a string; -1 when there is none. */
  function LastReal(args: seq<Expr>): (n: int)
    ensures -1 <= n < |args| && (n >= 0 ==> !args[n].StringLiteral?)
    ensures forall i | n < i < |args| :: args[i].StringLiteral?
    decreases |args|
  {
    if args == [] then -1
    else if !args[|args| - 1].StringLiteral? then |args| - 1
    else LastReal(args[..|args| - 1])
  }

  /** The `n`-th argument of a call, evaluated as the call does, after those before it. */
  ghost function Argument(host: Host, callee: string, args: seq<Expr>, n: nat, ctx: Context, st: State): Evaluated
    requires Nested(ctx, st) && n < |args|
  {
    if IsBuiltIn(callee) then
      var s := Notify(host, ctx, st, Synchronize);
      var front := EvalItems(host, args[..n], s.ctx, s.st).0;
      if front.exc.Some? then Threw(front) else Eval(host, args[n], front.ctx, front.st, true)
    else
      match FindSub(st.subScope, Signature(callee, |args|))
      case None => Threw(Fail(ctx, st, UndefinedSub))
      case Some(sub) =>
        if |sub.params| != |args| then Threw(Fail(ctx, st, ParameterMismatch))
        else BoundArgument(host, sub, args, n, ctx, st)
  }

  ghost function BoundArgument(host: Host, sub: Sub, args: seq<Expr>, n: nat, ctx: Context, st: State): Evaluated
    requires Nested(ctx, st) && n < |args| == |sub.params|
  {
    var front := BindArgs(host, args[..n], sub.params[..n], ctx, LOCAL, st);
    if front.reply.exc.Some? then Threw(front.reply)
    else Eval(host, args[n], front.reply.ctx, front.reply.st, true)
  }

  /** What evaluating argument `e` to `v` leaves as a call's result. */
  ghost predicate LeftBy(result: Number, e: Expr, v: Evaluated) {
    && v.reply.exc.None?
    && (result == Finite(0.0) <==> !IsVariable(e) && v.value == Finite(0.0))
    && (!IsVariable(e) ==> result == v.value)
    && (IsVariable(e) ==> ToAddress(result).Ok? && ReadCell(v.reply.st, ToAddress(result).value) == Ok(v.value))
  }

  /** No `return` in the body a call would run. */
  ghost predicate NeverReturns(callee: string, count: nat, st: State) {
    !IsBuiltIn(callee) ==>
      match FindSub(st.subScope, Signature(callee, count))
      case None => true
      case Some(sub) => forall s | s in sub.body :: ReturnFree(s)
  }

  /** A call that ends normally without `return`, of a subroutine or a built-in,
      yields 0 if and only if it has no argument but strings, or its last other
      one is not a variable and evaluates to 0. It yields that argument's value
      or, for a variable, its address. */
  lemma ImplicitResult(host: Host, callee: string, args: seq<Expr>, ctx: Context, st: State)
    requires Nested(ctx, st) && NeverReturns(callee, |args|, st)
    requires VisitCall(host, callee, args, ctx, st).exc.None?
    ensures var result := VisitCall(host, callee, args, ctx, st).ctx.result;
            var n := LastReal(args);
            if n < 0 then result == Finite(0.0)
            else LeftBy(result, args[n], Argument(host, callee, args, n, ctx.(result := Finite(0.0)), st))
  {
    var cleared := ctx.(result := Finite(0.0));
    if IsBuiltIn(callee) {
      assert VisitCall(host, callee, args, ctx, st) == CallPrint(host, callee == "alert", args, cleared, st);
      PrintLeavesLast(host, callee, args, cleared, st);
    } else {
      var sub := FindSub(st.subScope, Signature(callee, |args|)).value;
      assert VisitCall(host, callee, args, ctx, st) == CallSub(host, sub, args, cleared, st);
      SubLeavesLast(host, sub, args, cleared, st);
    }
  }

  lemma SubLeavesLast(host: Host, sub: Sub, args: seq<Expr>, ctx: Context, st: State)
    requires Nested(ctx, st) && |sub.params| == |args| && forall s | s in sub.body :: ReturnFree(s)
    requires CallSub(host, sub, args, ctx, st).exc.None?
    ensures var result := CallSub(host, sub, args, ctx, st).ctx.result;
            var n := LastReal(args);
            if args == [] then result == ctx.result
            else n == |args| - 1 && LeftBy(result, args[n], BoundArgument(host, sub, args, n, ctx, st))
  {
    CallKeepsLastResult(host, sub, args, ctx, st);
    hide CallSub, BindOne;
    if args == [] {
      assert BindArgs(host, args, sub.params, ctx, LOCAL, st) == Bound(Reply(ctx, st, None), LOCAL);
    } else {
      hide BindArgs, Eval;
      LastIsEvaluatedLast(host, sub, args, ctx, st);
      var n := |args| - 1;
      var front := BindArgs(host, args[..n], sub.params[..n], ctx, LOCAL, st);
      EvalLeavesValueOrAddress(host, args[n], front.reply.ctx, front.reply.st);
    }
  }

  /** Strings are not evaluated and leave everything alone. */
  lemma {:induction false} StringsLeaveAll(host: Host, args: seq<Expr>, ctx: Context, st: State)
    requires Nested(ctx, st) && forall a | a in args :: a.StringLiteral?
    ensures EvalItems(host, args, ctx, st).0 == Reply(ctx, st, None)
    decreases |args|
  {
    if args != [] {
      assert args[0] in args;
      StringsLeaveAll(host, args[1..], ctx, st);
    }
  }

  /** With only strings after it, argument `n` is the last one evaluated. */
  lemma {:induction false} ItemsEndWith(host: Host, args: seq<Expr>, n: nat, ctx: Context, st: State)
    requires Nested(ctx, st) && n < |args| && !args[n].StringLiteral?
    requires forall i | n < i < |args| :: args[i].StringLiteral?
    ensures var front := EvalItems(host, args[..n], ctx, st).0;
            EvalItems(host, args, ctx, st).0 ==
            if front.exc.Some? then front else Eval(host, args[n], front.ctx, front.st, true).reply
    decreases n
  {
    hide Eval;
    if n == 0 {
      var v := Eval(host, args[0], ctx, st, true);
      assert args[..0] == [];
      if v.reply.exc.None? { StringsLeaveAll(host, args[1..], v.reply.ctx, v.reply.st); }
    } else {
      assert args[..n][0] == args[0] && args[..n][1..] == args[1..][..n - 1];
      if args[0].StringLiteral? {
        ItemsEndWith(host, args[1..], n - 1, ctx, st);
      } else {
        var v := Eval(host, args[0], ctx, st, true);
        if v.reply.exc.None? { ItemsEndWith(host, args[1..], n - 1, v.reply.ctx, v.reply.st); }
      }
    }
  }

  lemma PrintLeavesLast(host: Host, callee: string, args: seq<Expr>, ctx: Context, st: State)
    requires Nested(ctx, st) && IsBuiltIn(callee) && CallPrint(host, callee == "alert", args, ctx, st).exc.None?
    ensures var result := CallPrint(host, callee == "alert", args, ctx, st).ctx.result;
            var n := LastReal(args);
            if n < 0 then result == ctx.result else LeftBy(result, args[n], Argument(host, callee, args, n, ctx, st))
  {
    hide Eval, EvalItems;
    var s := Notify(host, ctx, st, Synchronize);
    var n := LastReal(args);
    if n < 0 {
      StringsLeaveAll(host, args, s.ctx, s.st);
    } else {
      ItemsEndWith(host, args, n, s.ctx, s.st);
      var front := EvalItems(host, args[..n], s.ctx, s.st).0;
      if front.exc.None? { EvalLeavesValueOrAddress(host, args[n], front.ctx, front.st); }
    }
  }

  /** A concrete built-in call: printing a number and then a string yields the number. */
  lemma PrintYieldsItsNumber(host: Host, st: State, value: Number, text: string)
    requires Nested(GLOBAL, st) && Quiet(host)
    ensures var v := Eval(host, Call("print", [Literal(value), StringLiteral(text)]), GLOBAL, st, true);
            v.reply.exc.None? && v.value == value
  {
    var args := [Literal(value), StringLiteral(text)];
    var s := Notify(host, GLOBAL, st, Synchronize);
    EvalLiteral(host, value, GLOBAL, s.st);
    assert args[..0] == [] && EvalItems(host, args[..0], GLOBAL, s.st).0 == Reply(GLOBAL, s.st, None);
    ItemsEndWith(host, args, 0, GLOBAL, s.st);
    hide EvalItems;
    assert VisitExpr(host, Call("print", args), GLOBAL, st) == VisitCall(host, "print", args, GLOBAL, st);
    assert VisitCall(host, "print", args, GLOBAL, st) == CallPrint(host, false, args, GLOBAL, st);
  }

  lemma LastIsEvaluatedLast(host: Host, sub: Sub, args: seq<Expr>, ctx: Context, st: State)
    requires Nested(ctx, st) && |sub.params| == |args| > 0
    requires BindArgs(host, args, sub.params, ctx, LOCAL, st).reply.exc.None?
    ensures var n := |args| - 1;
            BindArgs(host, args[..n], sub.params[..n], ctx, LOCAL, st).reply.exc.None?
    ensures !args[|args| - 1].StringLiteral?
    ensures var v := BoundArgument(host, sub, args, |args| - 1, ctx, st);
            v.reply.exc.None? && BindArgs(host, args, sub.params, ctx, LOCAL, st).reply.ctx == v.reply.ctx
  {
    hide BindArgs, Eval;
    BindArgsEndsWithLast(host, args, sub.params, ctx, LOCAL, st);
  }

  /** Without a `return` the caller's result is what the arguments left there. */
  lemma CallKeepsLastResult(host: Host, sub: Sub, args: seq<Expr>, ctx: Context, st: State)
    requires Nested(ctx, st) && |sub.params| == |args| && forall s | s in sub.body :: ReturnFree(s)
    requires CallSub(host, sub, args, ctx, st).exc.None?
    ensures BindArgs(host, args, sub.params, ctx, LOCAL, st).reply.exc.None?
    ensures CallSub(host, sub, args, ctx, st).ctx.result == BindArgs(host, args, sub.params, ctx, LOCAL, st).reply.ctx.result
  {
    hide BindArgs, RunBody;
    var b := BindArgs(host, args, sub.params, ctx, LOCAL, st);
    if b.reply.exc.None? {
      RunBodyDoesNotReturn(host, sub.body, b.inner, b.reply.st);
    }
  }

  /** No `return` inside, but for those of subroutines declared there. */
  predicate ReturnFree(s: Stmt) {
    match s
    case Return(_) => false
    case Compound(body) => forall t | t in body :: ReturnFree(t)
    case If(_, thn, els) => ReturnFree(thn) && (els.Some? ==> ReturnFree(els.value))
    case While(_, loop) => ReturnFree(loop)
    case _ => true
  }

  lemma {:induction false} RunBodyDoesNotReturn(host: Host, body: seq<Stmt>, ctx: Context, st: State)
    requires Nested(ctx, st) && ctx.action != RETURN && forall s | s in body :: ReturnFree(s)
    ensures RunBody(host, body, ctx, st).ctx.action != RETURN
    decreases body
  {
    hide Execute;
    if body != [] {
      ExecuteDoesNotReturn(host, body[0], ctx, st);
      var r := Execute(host, body[0], ctx, st);
      if r.exc.None? { RunBodyDoesNotReturn(host, body[1..], r.ctx, r.st); }
    }
  }

  lemma {:induction false} RunCompoundDoesNotReturn(host: Host, body: seq<Stmt>, ctx: Context, st: State)
    requires Nested(ctx, st) && ctx.action != RETURN && forall s | s in body :: ReturnFree(s)
    ensures RunCompound(host, body, ctx, st).ctx.action != RETURN
    decreases body
  {
    hide Execute;
    if body != [] {
      ExecuteDoesNotReturn(host, body[0], ctx, st);
      var r := Execute(host, body[0], ctx, st);
      if r.exc.None? && r.ctx.action == NONE { RunCompoundDoesNotReturn(host, body[1..], r.ctx, r.st); }
    }
  }

  lemma {:induction false} ExecuteDoesNotReturn(host: Host, s: Stmt, ctx: Context, st: State)
    requires Nested(ctx, st) && ctx.action != RETURN && ReturnFree(s)
    ensures Execute(host, s, ctx, st).ctx.action != RETURN
    decreases s, 1
  {
    hide VisitStmt;
    if st.budget > 0 {
      var i := Notify(host, ctx, st.(budget := st.budget - 1), Interrupt);
      if i.exc.None? { VisitStmtDoesNotReturn(host, s, i.ctx, i.st); }
    }
  }

  lemma {:induction false} VisitStmtDoesNotReturn(host: Host, s: Stmt, ctx: Context, st: State)
    requires Nested(ctx, st) && ctx.action != RETURN && ReturnFree(s)
    ensures VisitStmt(host, s, ctx, st).ctx.action != RETURN
    decreases s, 0
  {
    hide Execute, Eval, RunCompound, VisitWhile, RunBranch, EvalWords, CallBack, NgcSemantics.VisitExpr;
    match s
    case Compound(body) => RunCompoundDoesNotReturn(host, body, ctx, st);
    case If(condition, thn, els) =>
      var c := Eval(host, condition, ctx, st, true);
      if c.reply.exc.None? {
        if c.value != Finite(0.0) {
          ExecuteDoesNotReturn(host, thn, LOCAL, c.reply.st);
          BranchDoesNotReturn(host, thn, c.reply.ctx, c.reply.st);
        } else if els.Some? {
          ExecuteDoesNotReturn(host, els.value, LOCAL, c.reply.st);
          BranchDoesNotReturn(host, els.value, c.reply.ctx, c.reply.st);
        }
        assert VisitStmt(host, s, ctx, st) == VisitIf(host, condition, thn, els, ctx, st);
        assert VisitIf(host, condition, thn, els, ctx, st)
            == Choose(host, c.value != Finite(0.0), thn, els, c.reply.ctx, c.reply.st);
      }
    case While(condition, loop) => WhileDoesNotReturn(host, condition, loop, ctx, st);
    case _ =>
  }

  lemma BranchDoesNotReturn(host: Host, s: Stmt, ctx: Context, st: State)
    requires Nested(ctx, st) && ctx.action != RETURN && Execute(host, s, LOCAL, st).ctx.action != RETURN
    ensures RunBranch(host, s, ctx, st).ctx.action != RETURN
  {
    hide Execute;
  }

  lemma LoopDoesNotReturn(host: Host, loop: Stmt, ctx: Context, st: State)
    requires Nested(ctx, st) && ctx.action != RETURN && Execute(host, loop, LOCAL, st).ctx.action != RETURN
    ensures RunLoop(host, loop, ctx, st).0.ctx.action != RETURN
  {
    hide Execute;
  }

  lemma WhileStepDoesNotReturn(host: Host, condition: Expr, loop: Stmt, ctx: Context, st: State)
    requires Nested(ctx, st) && ctx.action != RETURN
    requires var c := Eval(host, condition, ctx, st, true).reply;
             c.exc.None? ==> Execute(host, loop, LOCAL, c.st).ctx.action != RETURN
    ensures WhileStep(host, condition, loop, ctx, st).0.ctx.action != RETURN
  {
    hide Execute, Eval, RunLoop;
    var c := Eval(host, condition, ctx, st, true);
    if c.reply.exc.None? && c.value != Finite(0.0) {
      LoopDoesNotReturn(host, loop, c.reply.ctx, c.reply.st);
    }
  }

  lemma {:induction false} WhileDoesNotReturn(host: Host, condition: Expr, loop: Stmt, ctx: Context, st: State)
    requires Nested(ctx, st) && ctx.action != RETURN && ReturnFree(loop)
    ensures VisitWhile(host, condition, loop, ctx, st).ctx.action != RETURN
    decreases loop, 2, st.budget
  {
    hide Execute, Eval, WhileStep;
    var c := Eval(host, condition, ctx, st, true).reply;
    if c.exc.None? {
      ExecuteDoesNotReturn(host, loop, LOCAL, c.st);
    }
    WhileStepDoesNotReturn(host, condition, loop, ctx, st);
    var (r, again) := WhileStep(host, condition, loop, ctx, st);
    if again { WhileDoesNotReturn(host, condition, loop, r.ctx, r.st); }
  }

  /** A concrete call: an empty subroutine with a parameter returns its argument, not zero. */
  lemma EmptySubReturnsItsArgument(host: Host, st: State, value: Number)
    requires AtRest(st) && Declares(st, Sub("f", ["p"], []))
    ensures var v := Eval(host, Call("f", [Literal(value)]), GLOBAL, st, true);
            v.reply.exc.None? && v.value == value
  {
    EmptySubReturns(host, Literal(value), st);
    EvalLiteral(host, value, GLOBAL, st);
  }

  /** A concrete call: given a variable, it returns the variable's address, not its value. */
  lemma EmptySubReturnsAddress(host: Host, st: State, name: string)
    requires AtRest(st) && Declares(st, Sub("f", ["p"], [])) && Eval(host, Named(name), GLOBAL, st, true).reply.exc.None?
    ensures var v := Eval(host, Call("f", [Named(name)]), GLOBAL, st, true);
            v.reply.exc.None? && v.value == Finite(Lookup(st.scope, name) as real)
  {
    EmptySubReturns(host, Named(name), st);
  }

  lemma EmptySubReturns(host: Host, arg: Expr, st: State)
    requires AtRest(st) && Declares(st, Sub("f", ["p"], [])) && Eval(host, arg, GLOBAL, st, true).reply.exc.None?
    requires !arg.StringLiteral?
    ensures var v := Eval(host, Call("f", [arg]), GLOBAL, st, true);
            v.reply.exc.None? && v.value == Eval(host, arg, GLOBAL, st, true).reply.ctx.result
  {
    var sub := Sub("f", ["p"], []);
    CallRunsSub(host, sub, [arg], st);
    BindOneOf(host, arg, "p", GLOBAL, LOCAL, st);
    EvalNeutral(host, arg, GLOBAL, st, true);
    hide Eval;
    var v := Eval(host, arg, GLOBAL, st, true);
    var b := BindOne(host, arg, "p", GLOBAL, LOCAL, st);
    AllocateBalanced(LOCAL, v.reply.st, "p", v.value);
    assert RunBody(host, [], b.inner, b.reply.st) == Reply(b.inner, b.reply.st, None);
    LeaveNeutral(b.reply.ctx, b.inner, v.reply.st, b.reply.st, None);
  }

  // ----- arguments and parameters

  /** No calls inside, and no variable with one of these names. */
  predicate Apart(e: Expr, names: set<string>) {
    match e
    case Named(name) => name !in names
    case Numeric(address) => Apart(address, names)
    case Unary(_, operand) => Apart(operand, names)
    case Binary(_, left, right) => Apart(left, names) && Apart(right, names)
    case Grouping(inner) => Apart(inner, names)
    case Call(_, _) => false
    case _ => true
  }

  /** What a callee being bound has put on top of its caller's state. */
  datatype Overlay = Overlay(frames: seq<Frame>, subs: seq<SubFrame>, cells: seq<Number>)

  ghost predicate Fits(x: Overlay, names: set<string>) {
    |x.frames| == |x.subs| <= 1 && forall f | f in x.frames :: f.Keys <= names
  }

  function Over(st: State, x: Overlay): State {
    st.(scope := st.scope + x.frames, subScope := st.subScope + x.subs, stack := st.stack + x.cells)
  }

  function ReplyOver(r: Reply, x: Overlay): Reply { r.(st := Over(r.st, x)) }

  lemma LookupUnder(scope: seq<Frame>, x: Overlay, names: set<string>, name: string)
    requires Fits(x, names) && name !in names
    ensures Lookup(scope + x.frames, name) == Lookup(scope, name)
  {
    if x.frames == [] {
      assert scope + x.frames == scope;
    } else {
      assert (scope + x.frames)[..|scope|] == scope;
    }
  }

  lemma WriteUnder(st: State, x: Overlay, address: nat, value: Number)
    requires WriteCell(st, address, value).Ok?
    ensures WriteCell(Over(st, x), address, value) == Ok(Over(WriteCell(st, address, value).value, x))
  {
    if address >= ADDR_STACK {
      var i := address - ADDR_STACK;
      assert (st.stack + x.cells)[i := value] == st.stack[i := value] + x.cells;
    }
  }

  /** An expression without calls that names no parameter and evaluates without
      an exception does the same with the callee's overlay on top. */
  lemma {:induction false} EvalUnder(
    host: Host, e: Expr, names: set<string>, ctx: Context, st: State, dereference: bool, x: Overlay)
    requires Nested(ctx, st) && Fits(x, names) && Apart(e, names)
    requires Eval(host, e, ctx, st, dereference).reply.exc.None?
    ensures Nested(ctx, Over(st, x))
    ensures var v := Eval(host, e, ctx, st, dereference);
            Eval(host, e, ctx, Over(st, x), dereference) == Evaluated(ReplyOver(v.reply, x), v.value)
    decreases e, 3
  {
    hide VisitExpr;
    var s := if dereference && IsVariable(e) then Notify(host, ctx, st, Synchronize) else Reply(ctx, st, None);
    VisitExprUnder(host, e, names, s.ctx, s.st, x);
    assert Over(s.st, x) == if dereference && IsVariable(e) then Notify(host, ctx, Over(st, x), Synchronize).st else Over(st, x);
  }

  lemma {:induction false} VisitExprUnder(host: Host, e: Expr, names: set<string>, ctx: Context, st: State, x: Overlay)
    requires Nested(ctx, st) && Fits(x, names) && Apart(e, names)
    requires VisitExpr(host, e, ctx, st).exc.None?
    ensures Nested(ctx, Over(st, x))
    ensures VisitExpr(host, e, ctx, Over(st, x)) == ReplyOver(VisitExpr(host, e, ctx, st), x)
    decreases e, 2
  {
    hide Eval, Lookup;
    match e
    case Named(name) => LookupUnder(st.scope, x, names, name);
    case Numeric(address) => EvalUnder(host, address, names, ctx, st, true, x);
    case Unary(op, operand) => EvalUnder(host, operand, names, ctx, st, op != ADDRESS_OF, x);
    case Binary(op, left, right) => VisitBinaryUnder(host, op, left, right, names, ctx, st, x);
    case Grouping(inner) => EvalUnder(host, inner, names, ctx, st, true, x);
    case _ =>
  }

  lemma {:induction false} EvalPairUnder(
    host: Host, op: BinaryOp, left: Expr, right: Expr, names: set<string>, ctx: Context, st: State, x: Overlay)
    requires Nested(ctx, st) && Fits(x, names) && Apart(left, names) && Apart(right, names)
    requires EvalPair(host, op, left, right, ctx, st).1.reply.exc.None?
    ensures Nested(ctx, Over(st, x))
    ensures var (l, v) := EvalPair(host, op, left, right, ctx, st);
            EvalPair(host, op, left, right, ctx, Over(st, x)) == (l, Evaluated(ReplyOver(v.reply, x), v.value))
    decreases Binary(op, left, right), 0
  {
    hide Eval, Fits, Apart, Over;
    var l := Eval(host, left, ctx, st, op != ASSIGN);
    EvalUnder(host, left, names, ctx, st, op != ASSIGN, x);
    EvalUnder(host, right, names, l.reply.ctx, l.reply.st, true, x);
  }

  lemma {:induction false} VisitBinaryUnder(
    host: Host, op: BinaryOp, left: Expr, right: Expr, names: set<string>, ctx: Context, st: State, x: Overlay)
    requires Nested(ctx, st) && Fits(x, names) && Apart(left, names) && Apart(right, names)
    requires VisitBinary(host, op, left, right, ctx, st).exc.None?
    ensures Nested(ctx, Over(st, x))
    ensures VisitBinary(host, op, left, right, ctx, Over(st, x)) == ReplyOver(VisitBinary(host, op, left, right, ctx, st), x)
    decreases Binary(op, left, right), 1
  {
    hide EvalPair, Fits, Apart, Combined, Over;
    EvalPairUnder(host, op, left, right, names, ctx, st, x);
    var (l, v) := EvalPair(host, op, left, right, ctx, st);
    CombinedUnder(host, op, l, v.value, v.reply, x);
  }

  lemma CombinedUnder(host: Host, op: BinaryOp, left: Number, right: Number, r: Reply, x: Overlay)
    requires Combined(host, op, left, right, r).exc.None? && r.exc.None?
    ensures Combined(host, op, left, right, ReplyOver(r, x)) == ReplyOver(Combined(host, op, left, right, r), x)
  {
    if op == ASSIGN {
      WriteUnder(r.st, x, ToAddress(left).value, right);
    }
  }

  /** One more parameter bound, over a caller whose stack has `height` cells. */
  function Push(x: Overlay, name: string, value: Number, height: nat): Overlay {
    var frame := if x.frames == [] then map[] else x.frames[0];
    Overlay([frame[name := StackAddress(height + |x.cells|)]], if x.subs == [] then [map[]] else x.subs, x.cells + [value])
  }

  function PushAll(x: Overlay, params: seq<string>, values: seq<Number>, height: nat): Overlay
    requires |params| == |values|
    decreases |params|
  {
    if params == [] then x else PushAll(Push(x, params[0], values[0], height), params[1..], values[1..], height)
  }

  function Names(params: seq<string>): set<string> { set p | p in params }

  ghost predicate Distinct(params: seq<string>) {
    forall i, j | 0 <= i < j < |params| :: params[i] != params[j]
  }

  ghost predicate Unbound(x: Overlay, params: seq<string>) {
    forall f, p | f in x.frames && p in params :: p !in f
  }

  lemma AllocateUnder(inner: Context, st: State, x: Overlay, names: set<string>, name: string, value: Number)
    requires |st.scope| == |st.subScope| >= 1 && Fits(x, names) && Unbound(x, [name])
    requires inner == LOCAL.(live := x.frames != [])
    ensures Nested(inner, Over(st, x))
    ensures Allocate(inner, Over(st, x), name, value)
         == Reply(inner.(live := true), Over(st, Push(x, name, value, |st.stack|)), None)
  {
    if x.frames == [] {
      FirstUnder(inner, st, x, name, value);
    } else {
      LaterUnder(inner, st, x, name, value);
    }
  }

  lemma FirstUnder(inner: Context, st: State, x: Overlay, name: string, value: Number)
    requires |st.scope| == |st.subScope| >= 1 && x.frames == [] && x.subs == [] && inner == LOCAL
    ensures Nested(inner, Over(st, x))
    ensures Allocate(inner, Over(st, x), name, value)
         == Reply(inner.(live := true), Over(st, Push(x, name, value, |st.stack|)), None)
  {
    assert st.scope + x.frames == st.scope && st.subScope + x.subs == st.subScope;
    var ready := Open(Over(st, x));
    assert ready.scope[..|ready.scope| - 1] == st.scope;
    assert Over(st, Push(x, name, value, |st.stack|)).stack == ready.stack + [value];
  }

  lemma LaterUnder(inner: Context, st: State, x: Overlay, name: string, value: Number)
    requires |st.scope| == |st.subScope| >= 1 && |x.frames| == |x.subs| == 1 && name !in x.frames[0]
    requires inner == LOCAL.(live := true)
    ensures Nested(inner, Over(st, x))
    ensures Allocate(inner, Over(st, x), name, value)
         == Reply(inner.(live := true), Over(st, Push(x, name, value, |st.stack|)), None)
  {
    var ready := Over(st, x);
    assert ready.scope[..|ready.scope| - 1] == st.scope && Last(ready.scope) == x.frames[0];
    assert Over(st, Push(x, name, value, |st.stack|)).stack == ready.stack + [value];
  }

  /** An argument binds to the value it has without the overlay. */
  lemma BindOneUnder(
    host: Host, arg: Expr, param: string, names: set<string>, ctx: Context, inner: Context, st: State, x: Overlay)
    requires Nested(ctx, st) && Sound(st) && Fits(x, names) && Apart(arg, names) && !arg.StringLiteral?
    requires inner == LOCAL.(live := x.frames != []) && Unbound(x, [param])
    requires Eval(host, arg, ctx, st, true).reply.exc.None?
    ensures Nested(ctx, Over(st, x)) && Nested(inner, Over(st, x))
    ensures var v := Eval(host, arg, ctx, st, true);
            BindOne(host, arg, param, ctx, inner, Over(st, x)) ==
            Bound(ReplyOver(v.reply, Push(x, param, v.value, |st.stack|)), inner.(live := true))
  {
    EvalUnder(host, arg, names, ctx, st, true, x);
    EvalNeutral(host, arg, ctx, st, true);
    hide Eval, Allocate, Push, Sound;
    var v := Eval(host, arg, ctx, st, true);
    AllocateUnder(inner, v.reply.st, x, names, param, v.value);
  }

  lemma {:induction false} BindArgsUnder(
    host: Host, args: seq<Expr>, params: seq<string>, names: set<string>, ctx: Context, inner: Context, st: State, x: Overlay)
    requires |args| == |params| && Nested(ctx, st) && Sound(st) && Fits(x, names)
    requires forall a | a in args :: Apart(a, names) && !a.StringLiteral?
    requires Distinct(params) && (forall p | p in params :: p in names) && Unbound(x, params)
    requires inner == LOCAL.(live := x.frames != [])
    requires EvalWords(host, args, ctx, st).0.exc.None?
    ensures Nested(ctx, Over(st, x)) && Nested(inner, Over(st, x))
    ensures var (r, values) := EvalWords(host, args, ctx, st);
            |values| == |args|
            && BindArgs(host, args, params, ctx, inner, Over(st, x))
            == Bound(ReplyOver(r, PushAll(x, params, values, |st.stack|)), inner.(live := inner.live || args != []))
    decreases |args|
  {
    if args != [] {
      var v := Eval(host, args[0], ctx, st, true);
      var y := Push(x, params[0], v.value, |st.stack|);
      BindOneUnder(host, args[0], params[0], names, ctx, inner, st, x);
      EvalNeutral(host, args[0], ctx, st, true);
      hide Eval, BindOne;
      assert Fits(y, names) && Unbound(y, params[1..]) && Distinct(params[1..]);
      BindArgsUnder(host, args[1..], params[1..], names, v.reply.ctx, inner.(live := true), v.reply.st, y);
    }
  }

  /** Names bound so far stay bound to their cells. */
  lemma {:induction false} PushAllKeeps(x: Overlay, params: seq<string>, values: seq<Number>, height: nat, name: string)
    requires |params| == |values| && |x.frames| == 1 && name in x.frames[0] && name !in params
    ensures var y := PushAll(x, params, values, height);
            |y.frames| == 1 && name in y.frames[0] && y.frames[0][name] == x.frames[0][name]
    decreases |params|
  {
    if params != [] {
      PushAllKeeps(Push(x, params[0], values[0], height), params[1..], values[1..], height, name);
    }
  }

  lemma {:induction false} PushAllBinds(x: Overlay, params: seq<string>, values: seq<Number>, height: nat)
    requires |params| == |values| && Distinct(params) && |x.frames| <= 1
    ensures var y := PushAll(x, params, values, height);
            && y.cells == x.cells + values && (params != [] ==> |y.frames| == 1)
            && forall i | 0 <= i < |params| :: params[i] in y.frames[0]
                 && y.frames[0][params[i]] == StackAddress(height + |x.cells| + i)
    decreases |params|
  {
    if params != [] {
      var y := Push(x, params[0], values[0], height);
      PushAllBinds(y, params[1..], values[1..], height);
      PushAllKeeps(y, params[1..], values[1..], height, params[0]);
      assert forall i | 1 <= i < |params| :: params[i] == params[1..][i - 1];
    }
  }

  /** When the arguments make no calls and name no parameter, and evaluate in
      the caller's scope without an exception, binding gives every parameter
      exactly the value its argument has there. */
  lemma ArgumentsMeanTheCallers(host: Host, args: seq<Expr>, params: seq<string>, ctx: Context, st: State)
    requires |args| == |params| && Nested(ctx, st) && Sound(st) && Distinct(params)
    requires forall a | a in args :: Apart(a, Names(params)) && !a.StringLiteral?
    requires EvalWords(host, args, ctx, st).0.exc.None?
    ensures var (r, values) := EvalWords(host, args, ctx, st);
            var b := BindArgs(host, args, params, ctx, LOCAL, st);
            && b.reply.exc.None? && b.reply.ctx == r.ctx && |values| == |args|
            && b.reply.st.data == r.st.data && b.reply.st.stack == r.st.stack + values
            && forall i | 0 <= i < |params| ::
                 Lookup(b.reply.st.scope, params[i]) == StackAddress(|st.stack| + i)
  {
    hide BindArgs, EvalWords, Sound, PushAll, Lookup, Distinct;
    var x := Overlay([], [], []);
    assert Over(st, x) == st;
    BindArgsUnder(host, args, params, Names(params), ctx, LOCAL, st, x);
    var (r, values) := EvalWords(host, args, ctx, st);
    var y := PushAll(x, params, values, |st.stack|);
    PushAllBinds(x, params, values, |st.stack|);
    forall i | 0 <= i < |params|
      ensures Lookup(Over(r.st, y).scope, params[i]) == StackAddress(|st.stack| + i)
    {
      assert Last(Over(r.st, y).scope) == y.frames[0];
      LookupOnTop(Over(r.st, y).scope, params[i]);
    }
  }

  lemma LookupOnTop(scope: seq<Frame>, name: string)
    requires scope != [] && name in Last(scope)
    ensures Lookup(scope, name) == Last(scope)[name]
  {}

  /** The host's callbacks neither throw nor write. */
  ghost predicate Quiet(host: Host) {
    forall clock, message, data :: host.respond(clock, message, data) == Response(false, data, None)
  }

  /** The state in which the body of a subroutine with parameters x and y starts. */
  ghost predicate BothBound(st: State) {
    && |st.scope| == |st.subScope| == 2 && st.stack == [Finite(5.0), Finite(5.0)] && st.budget > 0
    && st.scope[1] == map["x" := ADDR_STACK, "y" := ADDR_STACK + 1]
  }

  lemma FirstArgumentBinds(host: Host, st: State)
    requires AtRest(st)
    ensures var b := BindOne(host, Literal(Finite(5.0)), "x", GLOBAL, LOCAL, st);
            && b.inner == LOCAL.(live := true)
            && b.reply == Reply(GLOBAL.(result := Finite(5.0)),
                                Declared(Open(st), "x", ADDR_STACK).(stack := [Finite(5.0)]), None)
  {
    EvalLiteral(host, Finite(5.0), GLOBAL, st);
    hide Eval;
    assert st.stack + [Finite(5.0)] == [Finite(5.0)];
  }

  lemma FirstArgumentReads(st: State, one: State)
    requires AtRest(st) && one == Declared(Open(st), "x", ADDR_STACK).(stack := [Finite(5.0)])
    ensures one.scope == st.scope + [map["x" := ADDR_STACK]] && |one.scope| == |one.subScope| == 2
    ensures ReadCell(one, ADDR_STACK) == Ok(Finite(5.0))
  {}

  lemma SecondArgumentFindsParameter(host: Host, st: State)
    requires AtRest(st) && Quiet(host) && st.budget > 0
    ensures var b := BindArgs(host, [Literal(Finite(5.0)), Named("x")], ["x", "y"], GLOBAL, LOCAL, st);
            b.reply.exc.None? && BothBound(b.reply.st) && b.inner == LOCAL.(live := true)
  {
    var five, x := Literal(Finite(5.0)), Named("x");
    FirstArgumentBinds(host, st);
    var b := BindOne(host, five, "x", GLOBAL, LOCAL, st);
    var one := b.reply.st;
    FirstArgumentReads(st, one);
    hide Eval, VisitExpr, AtRest, Declared, Open;
    LookupOnTop(one.scope, "x");
    EvalNamed(host, "x", b.reply.ctx, one);
    hide Lookup, ReadCell, Quiet;
    BindOneOf(host, x, "y", b.reply.ctx, b.inner, one);
    assert [five, x][1..] == [x] && ["x", "y"][1..] == ["y"];
    var c := BindOne(host, x, "y", b.reply.ctx, b.inner, one);
    assert BindArgs(host, [five, x], ["x", "y"], GLOBAL, LOCAL, st) == c;
  }

  lemma ReturnsSecond(host: Host, ctx: Context, st: State)
    requires BothBound(st) && Quiet(host) && ctx == LOCAL.(live := true)
    ensures var r := RunBody(host, [Return(Named("y"))], ctx, st);
            && r.exc.None? && r.ctx == ctx.(result := Finite(5.0), action := RETURN)
            && r.st == st.(budget := st.budget - 1, clock := st.clock + 2)
  {
    RunOneOf(host, Return(Named("y")), ctx, st);
    var i := Notify(host, ctx, st.(budget := st.budget - 1), Interrupt);
    LookupOnTop(i.st.scope, "y");
    hide Eval, VisitExpr, Lookup;
    EvalNamed(host, "y", ctx, i.st);
    var r := Execute(host, Return(Named("y")), ctx, st);
    assert r == VisitStmt(host, Return(Named("y")), ctx, i.st);
    assert r == VisitReturn(host, Named("y"), ctx, i.st);
  }

  /** A call whose body returns yields what was returned. */
  lemma ReturnedValue(host: Host, sub: Sub, args: seq<Expr>, ctx: Context, st: State)
    requires Nested(ctx, st) && |sub.params| == |args|
    requires var b := BindArgs(host, args, sub.params, ctx, LOCAL, st);
             && b.reply.exc.None?
             && var body := RunBody(host, sub.body, b.inner, b.reply.st);
                && body.exc.None? && body.ctx.action == RETURN && body.ctx.live
                && |Last(body.st.scope)| <= |body.st.stack|
    ensures var r := CallSub(host, sub, args, ctx, st);
            var b := BindArgs(host, args, sub.params, ctx, LOCAL, st);
            r.exc.None? && r.ctx.result == RunBody(host, sub.body, b.inner, b.reply.st).ctx.result
  {
    hide BindArgs, RunBody;
  }

  /** A concrete call where the two differ: with a global `x` worth 7, the call
      f[5, #x] of a subroutine with parameters x and y gives y the value 5. */
  lemma BoundParameterShadowsCaller(host: Host, st: State)
    requires AtRest(st) && Declares(st, Sub("f", ["x", "y"], [Return(Named("y"))])) && Quiet(host) && st.budget > 0
    requires "x" in st.scope[0] && 0 < st.scope[0]["x"] < ADDRESS_LIMIT
    requires ReadCell(st, st.scope[0]["x"]) == Ok(Finite(7.0))
    ensures Eval(host, Named("x"), GLOBAL, st, true).value == Finite(7.0)
    ensures var v := Eval(host, Call("f", [Literal(Finite(5.0)), Named("x")]), GLOBAL, st, true);
            v.reply.exc.None? && v.value == Finite(5.0)
  {
    hide Eval, BindArgs, RunBody, CallSub, VisitExpr, VisitCall, ReadCell, Quiet;
    var sub := Sub("f", ["x", "y"], [Return(Named("y"))]);
    var args := [Literal(Finite(5.0)), Named("x")];
    LookupOnTop(st.scope, "x");
    EvalNamed(host, "x", GLOBAL, st);
    CallRunsSub(host, sub, args, st);
    hide Lookup;
    SecondArgumentFindsParameter(host, st);
    var b := BindArgs(host, args, sub.params, GLOBAL, LOCAL, st);
    ReturnsSecond(host, b.inner, b.reply.st);
    hide AtRest, Declares;
    assert |b.reply.st.scope[1]| == 2;
    ReturnedValue(host, sub, args, GLOBAL, st);
  }

  lemma VisitNamed(host: Host, name: string, ctx: Context, st: State)
    requires Nested(ctx, st) && Lookup(st.scope, name) != 0
    ensures VisitExpr(host, Named(name), ctx, st)
         == Reply(ctx.(result := Finite(Lookup(st.scope, name) as real)), st, None)
  {
    hide Lookup;
  }

  /** Reading a variable under a quiet host. */
  lemma EvalNamed(host: Host, name: string, ctx: Context, st: State)
    requires Nested(ctx, st) && Quiet(host)
    requires 0 < Lookup(st.scope, name) < ADDRESS_LIMIT && ReadCell(st, Lookup(st.scope, name)).Ok?
    ensures Eval(host, Named(name), ctx, st, true) ==
            Evaluated(Reply(ctx.(result := Finite(Lookup(st.scope, name) as real)), st.(clock := st.clock + 1), None),
                      ReadCell(st, Lookup(st.scope, name)).value)
  {
    var address := Lookup(st.scope, name);
    assert ToAddress(Finite(address as real)) == Ok(address);
    var later := st.(clock := st.clock + 1);
    assert Notify(host, ctx, st, Synchronize) == Reply(ctx, later, None);
    VisitNamed(host, name, ctx, later);
    assert ReadCell(later, address) == ReadCell(st, address);
    hide VisitExpr, Lookup, ToAddress, ReadCell, Quiet, Notify;
  }
}
