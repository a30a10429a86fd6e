/** The evaluator as the object it is: visitors that update the scope stacks and
    the memory stack in place, each proved to do what NgcSemantics says. */
module NgcEvaluator {
  import opened Text
  import opened Doubles
  import opened NgcSyntax
  import opened NgcSemantics
  import opened NgcDiscipline

  class Evaluator {
    const host: Host
    var scope: seq<Frame>
    var subScope: seq<SubFrame>
    var data: seq<Cell>
    var stack: seq<Number>
    var clock: nat
    var budget: nat

    ghost function Now(): State
      reads this
    {
      State(scope, subScope, data, stack, clock, budget)
    }

    constructor (host: Host, data: seq<Cell>, budget: nat)
      ensures AtRest(Now()) && this.host == host && this.data == data && this.budget == budget
    {
      this.host := host;
      this.scope, this.subScope := [map[]], [map[]];
      this.data, this.stack := data, [];
      this.clock, this.budget := 0, budget;
    }

    // ----- Scope

    method Notify(message: Message) returns (exc: Option<Exception>)
      modifies this`data, this`clock
      ensures forall ctx :: Reply(ctx, Now(), exc) == NgcSemantics.Notify(host, ctx, old(Now()), message)
    {
      var response := host.respond(clock, message, data);
      data, clock := response.data, clock + 1;
      exc := if response.throws then Some(Thrown(HostFailure)) else None;
    }

    method OpenScope()
      modifies this`scope, this`subScope
      ensures Now() == Open(old(Now()))
    {
      scope, subScope := scope + [map[]], subScope + [map[]];
    }

    method Allocate(ctx: Context, name: string, value: Number) returns (c: Context, exc: Option<Exception>)
      requires Nested(ctx, Now())
      modifies this
      ensures Reply(c, Now(), exc) == NgcSemantics.Allocate(ctx, old(Now()), name, value)
    {
      c := ctx;
      if !ctx.global && !ctx.live {
        OpenScope();
      }
      if !ctx.global {
        c := c.(live := true);
      }
      var top := |scope| - 1;
      if top == 0 {
        if name in scope[0] {
          return c, Some(Thrown(RedeclaredGlobal));
        }
        scope := scope[..top] + [scope[top][name := |data|]];
        data := data + [Cell(value, true, true)];
      } else {
        if name in scope[top] {
          return c, Some(Thrown(RedeclaredLocal));
        }
        scope := scope[..top] + [scope[top][name := StackAddress(|stack|)]];
        stack := stack + [value];
      }
      exc := None;
    }

    /** The destructor of the scope `inner` owns, run whether or not something was thrown. */
    method Leave(inner: Context, thrown: Option<Exception>) returns (exc: Option<Exception>)
      requires thrown != Some(Terminated) ==> Nested(inner, Now())
      modifies this
      ensures forall ctx :: Reply(ctx, Now(), exc) == NgcSemantics.Leave(ctx, inner, old(Now()), thrown)
    {
      exc := thrown;
      if thrown != Some(Terminated) && inner.live {
        var top := |scope| - 1;
        var entries := |scope[top]|;
        if entries > |stack| {
          return Some(Terminated);
        }
        var height := |stack|;
        for popped := 0 to entries
          invariant stack == old(stack)[..height - popped]
          invariant scope == old(scope) && subScope == old(subScope)
          invariant data == old(data) && clock == old(clock) && budget == old(budget)
        {
          stack := stack[..|stack| - 1];
        }
        scope, subScope := scope[..top], subScope[..|subScope| - 1];
      }
    }

    method DeclareSub(sub: Sub) returns (exc: Option<Exception>)
      requires subScope != []
      modifies this`subScope
      ensures forall ctx :: Reply(ctx, Now(), exc) == NgcSemantics.DeclareSub(ctx, old(Now()), sub)
    {
      var top := |subScope| - 1;
      if SignatureOf(sub) in subScope[top] {
        return Some(Thrown(RedeclaredSub));
      }
      subScope := subScope[..top] + [subScope[top][SignatureOf(sub) := sub]];
      exc := None;
    }

    method FindVariable(name: string) returns (address: nat)
      ensures address == Lookup(scope, name)
    {
      var i := |scope|;
      assert scope[..i] == scope;
      while i > 0
        invariant 0 <= i <= |scope|
        invariant Lookup(scope[..i], name) == Lookup(scope, name)
      {
        assert scope[..i][..i - 1] == scope[..i - 1];
        if name in scope[i - 1] {
          return scope[i - 1][name];
        }
        i := i - 1;
      }
      assert scope[..0] == [];
      address := 0;
    }

    method FindSubroutine(sig: Signature) returns (found: Option<Sub>)
      ensures found == FindSub(subScope, sig)
    {
      var i := |subScope|;
      assert subScope[..i] == subScope;
      while i > 0
        invariant 0 <= i <= |subScope|
        invariant FindSub(subScope[..i], sig) == FindSub(subScope, sig)
      {
        assert subScope[..i][..i - 1] == subScope[..i - 1];
        if sig in subScope[i - 1] {
          return Some(subScope[i - 1][sig]);
        }
        i := i - 1;
      }
      found := None;
    }

    method Write(address: nat, value: Number) returns (exc: Option<Exception>)
      modifies this`data, this`stack
      ensures match WriteCell(old(Now()), address, value)
              case Ok(after) => exc.None? && Now() == after
              case Err(e) => exc == Some(Thrown(e)) && Now() == old(Now())
    {
      if address == 0 {
        return Some(Thrown(InvalidDataAddress));
      }
      if address >= ADDR_STACK {
        var cell := address - ADDR_STACK;
        if cell >= |stack| {
          return Some(Thrown(InvalidStackAddress));
        }
        stack := stack[cell := value];
      } else {
        if address >= |data| {
          return Some(Thrown(InvalidDataAddress));
        }
        if !data[address].writable {
          return Some(Thrown(NotWritable));
        }
        data := data[address := data[address].(value := value)];
      }
      exc := None;
    }

    method Read(address: nat) returns (r: Result<Number, ErrorKind>)
      ensures r == ReadCell(Now(), address)
    {
      if address == 0 {
        return Err(InvalidDataAddress);
      }
      if address >= ADDR_STACK {
        var cell := address - ADDR_STACK;
        return if cell < |stack| then Ok(stack[cell]) else Err(InvalidStackAddress);
      }
      if address >= |data| {
        return Err(InvalidDataAddress);
      }
      r := if data[address].readable then Ok(data[address].value) else Err(NotReadable);
    }

    // ----- expressions

    method Eval(e: Expr, ctx: Context, dereference: bool) returns (c: Context, value: Number, exc: Option<Exception>)
      requires Nested(ctx, Now())
      modifies this
      ensures Evaluated(Reply(c, Now(), exc), value) == NgcSemantics.Eval(host, e, ctx, old(Now()), dereference)
      decreases budget, 1, e, 3
    {
      value := NonFinite;
      if dereference && IsVariable(e) {
        exc := Notify(Synchronize);
        if exc.Some? {
          return ctx, value, exc;
        }
      }
      c, exc := VisitExpr(e, ctx);
      if exc.Some? {
        return;
      }
      if dereference && IsVariable(e) {
        match ToAddress(c.result)
        case Err(x) => exc := Some(Thrown(x));
        case Ok(address) =>
          var read := Read(address);
          match read {
            case Err(x) => exc := Some(Thrown(x));
            case Ok(v) => value := v;
          }
      } else {
        value := c.result;
      }
    }

    method VisitExpr(e: Expr, ctx: Context) returns (c: Context, exc: Option<Exception>)
      requires Nested(ctx, Now())
      modifies this
      ensures Reply(c, Now(), exc) == NgcSemantics.VisitExpr(host, e, ctx, old(Now()))
      decreases budget, 1, e, 2
    {
      c, exc := ctx, None;
      match e {
        case Literal(value) => c := c.(result := value);
        case StringLiteral(_) =>
        case Named(name) =>
          var address := FindVariable(name);
          if address == 0 {
            exc := Some(Thrown(UndeclaredVariable));
          } else {
            c := c.(result := Finite(address as real));
          }
        case Numeric(address) =>
          c, exc := VisitAddress(address, ctx, true);
        case Unary(op, operand) =>
          c, exc := VisitUnary(op, operand, ctx);
        case Binary(op, left, right) =>
          c, exc := VisitBinary(op, left, right, ctx);
        case Grouping(inner) =>
          var value;
          c, value, exc := Eval(inner, ctx, true);
          if exc.None? {
            c := c.(result := value);
          }
        case Call(callee, args) =>
          c, exc := VisitCall(callee, args, ctx);
      }
    }

    method VisitAddress(e: Expr, ctx: Context, dereference: bool) returns (c: Context, exc: Option<Exception>)
      requires Nested(ctx, Now())
      modifies this
      ensures Reply(c, Now(), exc) == Addressed(NgcSemantics.Eval(host, e, ctx, old(Now()), dereference))
      decreases budget, 1, e, 4
    {
      var value;
      c, value, exc := Eval(e, ctx, dereference);
      if exc.None? {
        match ToAddress(value)
        case Err(x) => exc := Some(Thrown(x));
        case Ok(address) => c := c.(result := Finite(address as real));
      }
    }

    method VisitUnary(op: UnaryOp, operand: Expr, ctx: Context) returns (c: Context, exc: Option<Exception>)
      requires Nested(ctx, Now())
      modifies this
      ensures Reply(c, Now(), exc) == NgcSemantics.VisitUnary(host, op, operand, ctx, old(Now()))
      decreases budget, 1, operand, 5
    {
      if op == ADDRESS_OF {
        if !IsVariable(operand) {
          return ctx, Some(Thrown(BadAddressOf));
        }
        c, exc := VisitAddress(operand, ctx, false);
      } else {
        var value;
        c, value, exc := Eval(operand, ctx, true);
        if exc.None? {
          c := c.(result := if op == NEGATIVE then host.negate(value) else value);
        }
      }
    }

    method EvalPair(op: BinaryOp, left: Expr, right: Expr, ctx: Context)
      returns (c: Context, l: Number, r: Number, exc: Option<Exception>)
      requires Nested(ctx, Now())
      modifies this
      ensures (l, Evaluated(Reply(c, Now(), exc), r)) == NgcSemantics.EvalPair(host, op, left, right, ctx, old(Now()))
      decreases budget, 1, Binary(op, left, right), 0
    {
      hide NgcSemantics.Eval;
      c, l, exc := Eval(left, ctx, op != ASSIGN);
      r := l;
      if exc.None? {
        assert NgcSemantics.EvalPair(host, op, left, right, ctx, old(Now()))
            == (l, NgcSemantics.Eval(host, right, c, Now(), true));
        c, r, exc := Eval(right, c, true);
      }
    }

    method VisitBinary(op: BinaryOp, left: Expr, right: Expr, ctx: Context) returns (c: Context, exc: Option<Exception>)
      requires Nested(ctx, Now())
      modifies this
      ensures Reply(c, Now(), exc) == NgcSemantics.VisitBinary(host, op, left, right, ctx, old(Now()))
      decreases budget, 1, Binary(op, left, right), 1
    {
      if op == ASSIGN && !IsVariable(left) {
        return ctx, Some(Thrown(BadAssignment));
      }
      var l, r;
      c, l, r, exc := EvalPair(op, left, right, ctx);
      if exc.None? {
        c, exc := Combine(op, l, r, c);
      }
    }

    method Combine(op: BinaryOp, l: Number, r: Number, ctx: Context) returns (c: Context, exc: Option<Exception>)
      modifies this`data, this`stack
      ensures Reply(c, Now(), exc) == Combined(host, op, l, r, Reply(ctx, old(Now()), None))
    {
      c, exc := ctx, None;
      if op != ASSIGN {
        c := c.(result := host.compute(op.operator, l, r));
        return;
      }
      match ToAddress(l)
      case Err(x) => exc := Some(Thrown(x));
      case Ok(address) =>
        exc := Write(address, r);
        if exc.None? {
          c := c.(result := r);
        }
    }

    // ----- calls

    method EvalItems(args: seq<Expr>, ctx: Context) returns (c: Context, items: seq<Expr>, exc: Option<Exception>)
      requires Nested(ctx, Now())
      modifies this
      ensures (Reply(c, Now(), exc), items) == NgcSemantics.EvalItems(host, args, ctx, old(Now()))
      decreases budget, 1, args, 0
    {
      if args == [] {
        return ctx, [], None;
      }
      if args[0].StringLiteral? {
        c, items, exc := EvalItems(args[1..], ctx);
        items := [args[0]] + items;
      } else {
        var value;
        c, value, exc := Eval(args[0], ctx, true);
        if exc.Some? {
          return c, [], exc;
        }
        c, items, exc := EvalItems(args[1..], c);
        items := [Literal(value)] + items;
      }
    }

    method BindOne(arg: Expr, param: string, ctx: Context, inner: Context)
      returns (c: Context, i: Context, exc: Option<Exception>)
      requires Nested(ctx, Now()) && Nested(inner, Now())
      modifies this
      ensures Bound(Reply(c, Now(), exc), i) == NgcSemantics.BindOne(host, arg, param, ctx, inner, old(Now()))
      decreases budget, 1, arg, 4
    {
      if arg.StringLiteral? {
        return ctx, inner, Some(Thrown(NotReal));
      }
      var value;
      c, value, exc := Eval(arg, ctx, true);
      if exc.Some? {
        return c, inner, exc;
      }
      i, exc := Allocate(inner, param, value);
    }

    method BindArgs(args: seq<Expr>, params: seq<string>, ctx: Context, inner: Context)
      returns (c: Context, i: Context, exc: Option<Exception>)
      requires |args| == |params| && Nested(ctx, Now()) && Nested(inner, Now())
      modifies this
      ensures Bound(Reply(c, Now(), exc), i) == NgcSemantics.BindArgs(host, args, params, ctx, inner, old(Now()))
      decreases budget, 1, args, 0
    {
      if args == [] {
        return ctx, inner, None;
      }
      c, i, exc := BindOne(args[0], params[0], ctx, inner);
      if exc.None? {
        c, i, exc := BindArgs(args[1..], params[1..], c, i);
      }
    }

    method VisitCall(callee: string, args: seq<Expr>, ctx: Context) returns (c: Context, exc: Option<Exception>)
      requires Nested(ctx, Now())
      modifies this
      ensures Reply(c, Now(), exc) == NgcSemantics.VisitCall(host, callee, args, ctx, old(Now()))
      decreases budget, 1, args, 2
    {
      c := ctx.(result := Finite(0.0));
      if callee == "print" || callee == "alert" {
        c, exc := CallPrint(callee == "alert", args, c);
        return;
      }
      var found := FindSubroutine(Signature(callee, |args|));
      if found.None? {
        return c, Some(Thrown(UndefinedSub));
      }
      if |found.value.params| != |args| {
        return c, Some(Thrown(ParameterMismatch));
      }
      c, exc := CallSub(found.value, args, c);
    }

    method CallPrint(alert: bool, args: seq<Expr>, ctx: Context) returns (c: Context, exc: Option<Exception>)
      requires Nested(ctx, Now())
      modifies this
      ensures Reply(c, Now(), exc) == NgcSemantics.CallPrint(host, alert, args, ctx, old(Now()))
      decreases budget, 1, args, 1
    {
      exc := Notify(Synchronize);
      if exc.Some? {
        return ctx, exc;
      }
      var items;
      c, items, exc := EvalItems(args, ctx);
      if exc.None? {
        exc := Notify(Print(items, alert));
      }
    }

    method CallSub(sub: Sub, args: seq<Expr>, ctx: Context) returns (c: Context, exc: Option<Exception>)
      requires Nested(ctx, Now()) && |sub.params| == |args|
      modifies this
      ensures Reply(c, Now(), exc) == NgcSemantics.CallSub(host, sub, args, ctx, old(Now()))
      decreases budget, 1, args, 1
    {
      var inner;
      c, inner, exc := BindArgs(args, sub.params, ctx, LOCAL);
      if exc.None? {
        inner, exc := RunBody(sub.body, inner);
        if exc.None? && inner.action == RETURN {
          c := c.(result := inner.result);
        }
      }
      exc := Leave(inner, exc);
    }

    // ----- statements

    method RunBody(body: seq<Stmt>, ctx: Context) returns (c: Context, exc: Option<Exception>)
      requires Nested(ctx, Now())
      modifies this
      ensures Reply(c, Now(), exc) == NgcSemantics.RunBody(host, body, ctx, old(Now()))
      decreases budget, 0, |body| + 1
    {
      c, exc := ctx, None;
      var i := 0;
      while i < |body|
        invariant 0 <= i <= |body| && exc.None? && Nested(c, Now())
        invariant budget <= old(budget)
        invariant NgcSemantics.RunBody(host, body[i..], c, Now()) == NgcSemantics.RunBody(host, body, ctx, old(Now()))
      {
        c, exc := Execute(body[i], c);
        if exc.Some? || c.action == RETURN {
          return;
        }
        assert body[i..][1..] == body[i + 1..];
        i := i + 1;
      }
    }

    method RunCompound(body: seq<Stmt>, ctx: Context) returns (c: Context, exc: Option<Exception>)
      requires Nested(ctx, Now())
      modifies this
      ensures Reply(c, Now(), exc) == NgcSemantics.RunCompound(host, body, ctx, old(Now()))
      decreases budget, 0, |body| + 1
    {
      c, exc := ctx, None;
      var i := 0;
      while i < |body|
        invariant 0 <= i <= |body| && exc.None? && Nested(c, Now())
        invariant budget <= old(budget)
        invariant NgcSemantics.RunCompound(host, body[i..], c, Now()) == NgcSemantics.RunCompound(host, body, ctx, old(Now()))
      {
        c, exc := Execute(body[i], c);
        if exc.Some? || c.action != NONE {
          return;
        }
        assert body[i..][1..] == body[i + 1..];
        i := i + 1;
      }
    }

    method Execute(s: Stmt, ctx: Context) returns (c: Context, exc: Option<Exception>)
      requires Nested(ctx, Now())
      modifies this
      ensures Reply(c, Now(), exc) == NgcSemantics.Execute(host, s, ctx, old(Now()))
      decreases budget, 0, 0
    {
      if budget == 0 {
        return ctx, Some(Thrown(Interrupted));
      }
      budget := budget - 1;
      ghost var begun := Now();
      exc := Notify(Interrupt);
      assert Reply(ctx, Now(), exc) == NgcSemantics.Notify(host, ctx, begun, Interrupt);
      if exc.Some? {
        return ctx, exc;
      }
      c, exc := VisitStmt(s, ctx);
    }

    method RunBranch(s: Stmt, ctx: Context) returns (c: Context, exc: Option<Exception>)
      requires Nested(ctx, Now())
      modifies this
      ensures Reply(c, Now(), exc) == NgcSemantics.RunBranch(host, s, ctx, old(Now()))
      decreases budget, 0, 1
    {
      c := ctx;
      var inner;
      inner, exc := Execute(s, LOCAL);
      if exc.None? {
        c := Propagate(c, inner);
      }
      exc := Leave(inner, exc);
    }

    method RunLoop(loop: Stmt, ctx: Context) returns (c: Context, exc: Option<Exception>, again: bool)
      requires Nested(ctx, Now())
      modifies this
      ensures (Reply(c, Now(), exc), again) == NgcSemantics.RunLoop(host, loop, ctx, old(Now()))
      decreases budget, 0, 1
    {
      c := ctx;
      var inner;
      inner, exc := Execute(loop, LOCAL);
      if exc.None? && inner.action == RETURN {
        c := Propagate(c, inner);
      }
      exc := Leave(inner, exc);
      again := exc.None? && inner.action != RETURN && inner.action != BREAK;
    }

    method WhileStep(condition: Expr, loop: Stmt, ctx: Context) returns (c: Context, exc: Option<Exception>, again: bool)
      requires Nested(ctx, Now())
      modifies this
      ensures (Reply(c, Now(), exc), again) == NgcSemantics.WhileStep(host, condition, loop, ctx, old(Now()))
      decreases budget, 2, 0
    {
      hide NgcSemantics.Eval, NgcSemantics.RunLoop;
      var value;
      c, value, exc := Eval(condition, ctx, true);
      again := false;
      if exc.None? && value != Finite(0.0) {
        assert NgcSemantics.WhileStep(host, condition, loop, ctx, old(Now()))
            == NgcSemantics.RunLoop(host, loop, c, Now());
        c, exc, again := RunLoop(loop, c);
      }
    }

    method VisitWhile(condition: Expr, loop: Stmt, ctx: Context) returns (c: Context, exc: Option<Exception>)
      requires Nested(ctx, Now())
      modifies this
      ensures Reply(c, Now(), exc) == NgcSemantics.VisitWhile(host, condition, loop, ctx, old(Now()))
      decreases budget, 2, 1
    {
      var again := true;
      c, exc := ctx, None;
      while again
        invariant budget <= old(budget)
        invariant again ==> Nested(c, Now())
        invariant NgcSemantics.VisitWhile(host, condition, loop, ctx, old(Now()))
               == if again then NgcSemantics.VisitWhile(host, condition, loop, c, Now()) else Reply(c, Now(), exc)
        decreases again, budget
      {
        c, exc, again := WhileStep(condition, loop, c);
      }
    }

    method EvalWords(reals: seq<Expr>, ctx: Context) returns (c: Context, values: seq<Number>, exc: Option<Exception>)
      requires Nested(ctx, Now())
      modifies this
      ensures (Reply(c, Now(), exc), values) == NgcSemantics.EvalWords(host, reals, ctx, old(Now()))
      decreases budget, 1, reals, 0
    {
      if reals == [] {
        return ctx, [], None;
      }
      var value;
      c, value, exc := Eval(reals[0], ctx, true);
      if exc.Some? {
        return c, [], exc;
      }
      c, values, exc := EvalWords(reals[1..], c);
      values := [value] + values;
    }

    method VisitAlias(name: string, target: Expr, ctx: Context) returns (c: Context, exc: Option<Exception>)
      requires Nested(ctx, Now())
      modifies this
      ensures Reply(c, Now(), exc) == NgcSemantics.VisitAlias(host, name, target, ctx, old(Now()))
      decreases budget, 2, 0
    {
      var value;
      c, value, exc := Eval(target, ctx, true);
      if exc.Some? {
        return;
      }
      match ToAddress(value)
      case Err(x) => exc := Some(Thrown(x));
      case Ok(address) =>
        var top := |scope| - 1;
        if name !in scope[top] {
          scope := scope[..top] + [scope[top][name := address]];
        }
    }

    method VisitLet(name: string, init: Option<Expr>, ctx: Context) returns (c: Context, exc: Option<Exception>)
      requires Nested(ctx, Now())
      modifies this
      ensures Reply(c, Now(), exc) == NgcSemantics.VisitLet(host, name, init, ctx, old(Now()))
      decreases budget, 2, 0
    {
      var value := Finite(0.0);
      c, exc := ctx, None;
      if init.Some? {
        c, value, exc := Eval(init.value, ctx, true);
      }
      if exc.None? {
        c, exc := Allocate(c, name, value);
      }
    }

    method VisitBlock(letters: seq<char>, reals: seq<Expr>, ctx: Context) returns (c: Context, exc: Option<Exception>)
      requires Nested(ctx, Now())
      modifies this
      ensures Reply(c, Now(), exc) == NgcSemantics.VisitBlock(host, letters, reals, ctx, old(Now()))
      decreases budget, 2, 0
    {
      var values;
      c, values, exc := EvalWords(reals, ctx);
      if exc.None? {
        var routine := host.respond(clock, Words(letters, values), data).routine;
        exc := Notify(Words(letters, values));
        if exc.None? && routine.Some? {
          exc := CallBack(routine.value, c);
        }
      }
    }

    method CallBack(routine: Routine, ctx: Context) returns (exc: Option<Exception>)
      requires Nested(ctx, Now())
      modifies this
      ensures Reply(ctx, Now(), exc) == NgcSemantics.CallBack(host, routine, ctx, old(Now()))
      decreases budget, 1, Call(routine.callee, Literals(routine.args)), 5
    {
      var value;
      value, exc := CallPrepared(routine.callee, Literals(routine.args));
      if exc == Some(Terminated) {
        return;
      }
      var thrown := Notify(Returned(if exc.None? then Some(value) else None));
      exc := if exc.Some? then exc else thrown;
    }

    method VisitReturn(e: Expr, ctx: Context) returns (c: Context, exc: Option<Exception>)
      requires Nested(ctx, Now())
      modifies this
      ensures Reply(c, Now(), exc) == NgcSemantics.VisitReturn(host, e, ctx, old(Now()))
      decreases budget, 2, 0
    {
      var value;
      c, value, exc := Eval(e, ctx, true);
      if exc.None? {
        c := c.(result := value, action := RETURN);
      }
    }

    method Choose(taken: bool, thn: Stmt, els: Option<Stmt>, ctx: Context) returns (c: Context, exc: Option<Exception>)
      requires Nested(ctx, Now())
      modifies this
      ensures Reply(c, Now(), exc) == NgcSemantics.Choose(host, taken, thn, els, ctx, old(Now()))
      decreases budget, 0, 2
    {
      c, exc := ctx, None;
      if taken {
        c, exc := RunBranch(thn, c);
      } else if els.Some? {
        c, exc := RunBranch(els.value, c);
      }
    }

    method VisitIf(condition: Expr, thn: Stmt, els: Option<Stmt>, ctx: Context) returns (c: Context, exc: Option<Exception>)
      requires Nested(ctx, Now())
      modifies this
      ensures Reply(c, Now(), exc) == NgcSemantics.VisitIf(host, condition, thn, els, ctx, old(Now()))
      decreases budget, 2, 0
    {
      var value;
      c, value, exc := Eval(condition, ctx, true);
      if exc.None? {
        assert NgcSemantics.VisitIf(host, condition, thn, els, ctx, old(Now()))
            == NgcSemantics.Choose(host, value != Finite(0.0), thn, els, c, Now());
        c, exc := Choose(value != Finite(0.0), thn, els, c);
      }
    }

    method VisitStmt(s: Stmt, ctx: Context) returns (c: Context, exc: Option<Exception>)
      requires Nested(ctx, Now())
      modifies this
      ensures Reply(c, Now(), exc) == NgcSemantics.VisitStmt(host, s, ctx, old(Now()))
      decreases budget, 2, 2
    {
      c, exc := ctx, None;
      match s {
        case Evaluate(e) => c, exc := VisitExpr(e, ctx);
        case Compound(body) => c, exc := RunCompound(body, ctx);
        case Alias(name, target) => if !ctx.global { c, exc := VisitAlias(name, target, ctx); }
        case Let(name, init) => if !ctx.global { c, exc := VisitLet(name, init, ctx); }
        case Block(letters, reals) => c, exc := VisitBlock(letters, reals, ctx);
        case Return(e) => c, exc := VisitReturn(e, ctx);
        case Break => c := c.(action := BREAK);
        case Continue => c := c.(action := CONTINUE);
        case If(condition, thn, els) => c, exc := VisitIf(condition, thn, els, ctx);
        case While(condition, loop) => c, exc := VisitWhile(condition, loop, ctx);
        case Declare(sub) => if !ctx.global { exc := DeclareSub(sub); }
      }
    }

    // ----- entry points

    /** A call made by the application, over whatever scopes are open. */
    method CallPrepared(callee: string, args: seq<Expr>) returns (value: Number, exc: Option<Exception>)
      requires Nested(GLOBAL, Now())
      modifies this
      ensures Sound(old(Now())) ==>
                && Sound(Now()) && Nested(GLOBAL, Now()) && exc != Some(Terminated)
                && scope == old(scope) && |stack| == |old(stack)|
      ensures value == NgcSemantics.Eval(host, Call(callee, args), GLOBAL, old(Now()), true).value
      ensures Now() == NgcSemantics.Eval(host, Call(callee, args), GLOBAL, old(Now()), true).reply.st
      ensures exc == NgcSemantics.Eval(host, Call(callee, args), GLOBAL, old(Now()), true).reply.exc
      decreases budget, 1, Call(callee, args), 4
    {
      if Sound(Now()) {
        PreparedCallIsNeutral(host, callee, args, Now());
      }
      var c;
      c, value, exc := Eval(Call(callee, args), GLOBAL, true);
    }

    method ExecuteSecondPass(program: seq<Stmt>) returns (exc: Option<Exception>)
      requires GlobalAliasesOnly(program) && AtRest(Now())
      modifies this
      ensures AtRest(Now()) && scope == old(scope) && exc != Some(Terminated)
      ensures Nested(GLOBAL, old(Now()))
      ensures Now() == SecondPass(host, program, GLOBAL, old(Now())).st
      ensures exc == SecondPass(host, program, GLOBAL, old(Now())).exc
    {
      SecondPassBalanced(host, program, GLOBAL, Now());
      var c := GLOBAL;
      exc := None;
      var i := 0;
      while i < |program|
        invariant 0 <= i <= |program| && exc.None? && Nested(c, Now())
        invariant SecondPass(host, program[i..], c, Now()) == SecondPass(host, program, GLOBAL, old(Now()))
      {
        c, exc := Execute(program[i], c);
        if exc.Some? {
          return;
        }
        assert program[i..][1..] == program[i + 1..];
        i := i + 1;
      }
    }

    // ----- the first pass

    method DeclareGlobal(name: string, address: nat, value: Number) returns (exc: Option<Exception>)
      requires scope != []
      modifies this`scope, this`data
      ensures forall ctx :: Reply(ctx, Now(), exc) == NgcSemantics.DeclareGlobal(ctx, old(Now()), name, address, value)
    {
      var top := |scope| - 1;
      if name in scope[top] {
        return Some(Thrown(RedeclaredGlobal));
      }
      var cell := address;
      if address == 0 {
        cell := |data|;
        data := data + [Cell(value, true, true)];
      }
      scope := scope[..top] + [scope[top][name := cell]];
      exc := None;
    }

    method FirstPassAlias(name: string, target: Expr, ctx: Context) returns (c: Context, exc: Option<Exception>)
      requires Nested(ctx, Now())
      modifies this
      ensures Reply(c, Now(), exc) == NgcSemantics.FirstPassAlias(host, name, target, ctx, old(Now()))
    {
      var value;
      c, value, exc := Eval(target, ctx, true);
      if exc.None? {
        match ToAddress(value)
        case Err(x) => exc := Some(Thrown(x));
        case Ok(address) => exc := DeclareGlobal(name, address, Finite(0.0));
      }
    }

    method FirstPassLet(name: string, init: Option<Expr>, ctx: Context) returns (c: Context, exc: Option<Exception>)
      requires Nested(ctx, Now())
      modifies this
      ensures Reply(c, Now(), exc) == NgcSemantics.FirstPassLet(host, name, init, ctx, old(Now()))
    {
      var value := Finite(0.0);
      c, exc := ctx, None;
      if init.Some? {
        c, value, exc := Eval(init.value, ctx, true);
      }
      if exc.None? {
        exc := DeclareGlobal(name, 0, value);
      }
    }

    method FirstPassStatement(s: Stmt, ctx: Context) returns (c: Context, exc: Option<Exception>)
      requires Nested(ctx, Now())
      modifies this
      ensures Reply(c, Now(), exc) == NgcSemantics.FirstPassStatement(host, s, ctx, old(Now()))
    {
      match s
      case Alias(name, target) => c, exc := FirstPassAlias(name, target, ctx);
      case Let(name, init) => c, exc := FirstPassLet(name, init, ctx);
      case Declare(sub) => exc := DeclareSub(sub); c := ctx;
      case _ => c, exc := ctx, None;
    }

    /** Declarations only: one scope and an empty stack before and after. */
    method ExecuteFirstPass(program: seq<Stmt>) returns (exc: Option<Exception>)
      requires GlobalAliasesOnly(program) && AtRest(Now())
      modifies this
      ensures AtRest(Now()) && exc != Some(Terminated)
      ensures Nested(GLOBAL, old(Now()))
      ensures Now() == FirstPass(host, program, GLOBAL, old(Now())).st
      ensures exc == FirstPass(host, program, GLOBAL, old(Now())).exc
    {
      FirstPassAtRest(host, program, GLOBAL, Now());
      hide NgcSemantics.FirstPassStatement, GlobalAliasesOnly;
      var c := GLOBAL;
      exc := None;
      var i := 0;
      while i < |program|
        invariant 0 <= i <= |program| && exc.None? && Nested(c, Now())
        invariant FirstPass(host, program[i..], c, Now()) == FirstPass(host, program, GLOBAL, old(Now()))
      {
        if budget == 0 {
          return Some(Thrown(Interrupted));
        }
        ghost var rest := FirstPass(host, program[i..], c, Now());
        budget := budget - 1;
        ghost var begun := Now();
        exc := Notify(Interrupt);
        assert Reply(c, Now(), exc) == NgcSemantics.Notify(host, c, begun, Interrupt);
        if exc.Some? {
          assert rest == Reply(c, Now(), exc);
          return;
        }
        c, exc := FirstPassStatement(program[i], c);
        if exc.Some? {
          assert rest == Reply(c, Now(), exc);
          return;
        }
        assert program[i..][1..] == program[i + 1..];
        i := i + 1;
      }
    }
  }
}
