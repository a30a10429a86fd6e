/** What an expression denotes, read off the expression and the memory with no
    evaluator in between, and what the host hears of it. */
module NgcExpressions {
  import opened Text
  import opened Doubles
  import opened NgcSyntax
  import opened NgcSemantics

  /** No call, no assignment, no string: nothing that changes anything. */
  predicate Plain(e: Expr) {
    match e
    case Literal(_) => true
    case Named(_) => true
    case Numeric(address) => Plain(address)
    case Unary(_, operand) => Plain(operand)
    case Binary(op, left, right) => op != ASSIGN && Plain(left) && Plain(right)
    case Grouping(inner) => Plain(inner)
    case _ => false
  }

  /** Synchronizing neither throws nor writes. */
  ghost predicate Still(host: Host) {
    forall clock, data :: host.respond(clock, Synchronize, data) == Response(false, data, None)
  }

  /** The address of a variable. */
  function Place(host: Host, e: Expr, st: State): Result<nat, ErrorKind>
    requires IsVariable(e) && Plain(e)
    decreases e, 0
  {
    match e
    case Named(name) =>
      if Lookup(st.scope, name) == 0 then Err(UndeclaredVariable)
      else if Lookup(st.scope, name) >= ADDRESS_LIMIT then Err(NotAnAddress)
      else Ok(Lookup(st.scope, name))
    case Numeric(address) =>
      match Denote(host, address, st)
      case Err(x) => Err(x)
      case Ok(value) => if IsAddress(value) then Ok(value.r.Floor) else Err(NotAnAddress)
  }

  /** A whole number of 32 bits. */
  predicate IsAddress(value: Number) {
    value.Finite? && value.r >= 0.0 && value.r < ADDRESS_LIMIT as real && value.r == value.r.Floor as real
  }

  /** The value of an expression, or the first thing wrong with it from left to right. */
  function Denote(host: Host, e: Expr, st: State): Result<Number, ErrorKind>
    requires Plain(e)
    decreases e, 1
  {
    if IsVariable(e) then
      match Place(host, e, st)
      case Err(x) => Err(x)
      case Ok(address) => ReadCell(st, address)
    else
      match e
      case Literal(value) => Ok(value)
      case Grouping(inner) => Denote(host, inner, st)
      case Unary(op, operand) =>
        if op == ADDRESS_OF then
          if !IsVariable(operand) then Err(BadAddressOf)
          else (match Place(host, operand, st) case Ok(address) => Ok(Finite(address as real)) case Err(x) => Err(x))
        else (match Denote(host, operand, st)
              case Ok(value) => Ok(if op == NEGATIVE then host.negate(value) else value)
              case Err(x) => Err(x))
      case Binary(op, left, right) =>
        (match Denote(host, left, st)
         case Err(x) => Err(x)
         case Ok(l) => match Denote(host, right, st)
                       case Err(x) => Err(x)
                       case Ok(r) => Ok(host.compute(op.operator, l, r)))
  }

  /** How often evaluating asks the host to synchronize: once for every variable read. */
  function Reads(e: Expr): nat
    requires Plain(e)
  {
    match e
    case Literal(_) => 0
    case Named(_) => 1
    case Numeric(address) => Reads(address) + 1
    case Grouping(inner) => Reads(inner)
    case Unary(op, operand) =>
      if op != ADDRESS_OF then Reads(operand) else if IsVariable(operand) then Reads(operand) - 1 else 0
    case Binary(_, left, right) => Reads(left) + Reads(right)
  }

  function Later(st: State, k: nat): State { st.(clock := st.clock + k) }

  lemma {:induction false} LaterDenotes(host: Host, e: Expr, st: State, k: nat)
    requires Plain(e)
    ensures Denote(host, e, Later(st, k)) == Denote(host, e, st)
    ensures IsVariable(e) ==> Place(host, e, Later(st, k)) == Place(host, e, st)
    decreases e
  {
    match e
    case Numeric(address) => LaterDenotes(host, address, st, k);
    case Unary(_, operand) => LaterDenotes(host, operand, st, k);
    case Binary(_, left, right) =>
      LaterDenotes(host, left, st, k);
      LaterDenotes(host, right, st, k);
    case Grouping(inner) => LaterDenotes(host, inner, st, k);
    case _ =>
  }

  /** `r` came out as denoted: nothing but the host's clock moved. */
  ghost predicate Came(r: Reply, st: State, asked: nat, denoted: Result<Number, ErrorKind>) {
    match denoted
    case Ok(_) => r.exc.None? && r.st == Later(st, asked)
    case Err(x) => r.exc == Some(Thrown(x)) && r.st == st.(clock := r.st.clock)
  }

  /** Under a host that does not write when it synchronizes, evaluating an
      expression without calls or assignments gives what it denotes, throws what
      is wrong with it first, and changes no memory and no scope. */
  lemma {:induction false} EvalDenotes(host: Host, e: Expr, ctx: Context, st: State)
    requires Nested(ctx, st) && Still(host) && Plain(e)
    ensures var v := Eval(host, e, ctx, st, true);
            Came(v.reply, st, Reads(e), Denote(host, e, st))
            && (Denote(host, e, st).Ok? ==> v.value == Denote(host, e, st).value)
    decreases e, 2
  {
    if IsVariable(e) {
      ReadingDenotes(host, e, ctx, st);
    } else {
      VisitDenotes(host, e, ctx, st);
      hide VisitExpr, Denote, Still;
    }
  }

  /** A variable's address. */
  lemma {:induction false} AddressDenotes(host: Host, e: Expr, ctx: Context, st: State)
    requires Nested(ctx, st) && Still(host) && Plain(e) && IsVariable(e)
    ensures var r := VisitExpr(host, e, ctx, st);
            match Place(host, e, st)
            case Ok(address) =>
              r.exc.None? && r.st == Later(st, Reads(e) - 1) && r.ctx.result == Finite(address as real) && address < ADDRESS_LIMIT
            case Err(x) =>
              && r.st == st.(clock := r.st.clock)
              && (r.exc == Some(Thrown(x)) || (r.exc.None? && x == NotAnAddress && ToAddress(r.ctx.result) == Err(x)))
    decreases e, 0
  {
    hide Lookup, Still;
    if e.Numeric? {
      EvalDenotes(host, e.address, ctx, st);
      hide Eval, Denote;
      assert VisitExpr(host, e, ctx, st) == Addressed(Eval(host, e.address, ctx, st, true));
    }
  }

  lemma {:induction false} ReadingDenotes(host: Host, e: Expr, ctx: Context, st: State)
    requires Nested(ctx, st) && Still(host) && Plain(e) && IsVariable(e)
    ensures var v := Eval(host, e, ctx, st, true);
            Came(v.reply, st, Reads(e), Denote(host, e, st))
            && (Denote(host, e, st).Ok? ==> v.value == Denote(host, e, st).value)
    decreases e, 1
  {
    assert Notify(host, ctx, st, Synchronize) == Reply(ctx, Later(st, 1), None);
    LaterDenotes(host, e, st, 1);
    AddressDenotes(host, e, ctx, Later(st, 1));
    assert forall a: nat :: ReadCell(Later(st, 1), a) == ReadCell(st, a);
    assert forall a: nat | a < ADDRESS_LIMIT :: ToAddress(Finite(a as real)) == Ok(a);
    assert Denote(host, e, st) == match Place(host, e, st) case Err(x) => Err(x) case Ok(address) => ReadCell(st, address);
    var r := VisitExpr(host, e, ctx, Later(st, 1));
    assert r.exc.None? ==> forall a: nat :: ReadCell(r.st, a) == ReadCell(st, a);
    hide VisitExpr, Denote, Place, Still, ReadCell, ToAddress, Notify;
  }

  lemma {:induction false} VisitDenotes(host: Host, e: Expr, ctx: Context, st: State)
    requires Nested(ctx, st) && Still(host) && Plain(e) && !IsVariable(e)
    ensures var r := VisitExpr(host, e, ctx, st);
            Came(r, st, Reads(e), Denote(host, e, st))
            && (Denote(host, e, st).Ok? ==> r.ctx.result == Denote(host, e, st).value)
    decreases e, 1
  {
    match e
    case Literal(_) =>
    case Grouping(inner) =>
      EvalDenotes(host, inner, ctx, st);
      hide Eval, Still;
    case Unary(op, operand) => UnaryDenotes(host, op, operand, ctx, st);
    case Binary(op, left, right) => BinaryDenotes(host, op, left, right, ctx, st);
  }

  lemma {:induction false} UnaryDenotes(host: Host, op: UnaryOp, operand: Expr, ctx: Context, st: State)
    requires Nested(ctx, st) && Still(host) && Plain(operand)
    ensures var (e, r) := (Unary(op, operand), VisitExpr(host, Unary(op, operand), ctx, st));
            Came(r, st, Reads(e), Denote(host, e, st))
            && (Denote(host, e, st).Ok? ==> r.ctx.result == Denote(host, e, st).value)
    decreases operand, 3
  {
    assert VisitExpr(host, Unary(op, operand), ctx, st) == VisitUnary(host, op, operand, ctx, st);
    if op != ADDRESS_OF {
      EvalDenotes(host, operand, ctx, st);
      hide Eval, Still;
    } else if IsVariable(operand) {
      AddressDenotes(host, operand, ctx, st);
      assert Eval(host, operand, ctx, st, false) ==
        var r := VisitExpr(host, operand, ctx, st); if r.exc.Some? then Threw(r) else Evaluated(r, r.ctx.result);
      assert forall a: nat | a < ADDRESS_LIMIT :: ToAddress(Finite(a as real)) == Ok(a);
      assert VisitUnary(host, op, operand, ctx, st) == Addressed(Eval(host, operand, ctx, st, false));
      hide Eval, Still, Place, VisitExpr, VisitUnary, ToAddress;
    }
  }

  lemma {:induction false} BinaryDenotes(host: Host, op: BinaryOp, left: Expr, right: Expr, ctx: Context, st: State)
    requires Nested(ctx, st) && Still(host) && op != ASSIGN && Plain(left) && Plain(right)
    ensures var (e, r) := (Binary(op, left, right), VisitExpr(host, Binary(op, left, right), ctx, st));
            Came(r, st, Reads(e), Denote(host, e, st))
            && (Denote(host, e, st).Ok? ==> r.ctx.result == Denote(host, e, st).value)
    decreases Binary(op, left, right), 0
  {
    var e := Binary(op, left, right);
    assert VisitExpr(host, e, ctx, st) == VisitBinary(host, op, left, right, ctx, st);
    hide VisitExpr, Still;
    EvalDenotes(host, left, ctx, st);
    var l := Eval(host, left, ctx, st, true);
    if l.reply.exc.None? {
      LaterDenotes(host, right, st, Reads(left));
      EvalDenotes(host, right, l.reply.ctx, l.reply.st);
      assert Later(Later(st, Reads(left)), Reads(right)) == Later(st, Reads(e));
      assert EvalPair(host, op, left, right, ctx, st) == (l.value, Eval(host, right, l.reply.ctx, l.reply.st, true));
    } else {
      assert EvalPair(host, op, left, right, ctx, st) == (l.value, l);
    }
    hide Eval, EvalPair;
  }

  // ----- what the host hears

  function AllReads(es: seq<Expr>): nat
    requires forall e | e in es :: Plain(e) || e.StringLiteral?
  {
    if es == [] then 0 else (if es[0].StringLiteral? then 0 else Reads(es[0])) + AllReads(es[1..])
  }

  ghost predicate DenoteAll(host: Host, es: seq<Expr>, values: seq<Number>, st: State) {
    && |es| == |values|
    && forall i | 0 <= i < |es| :: Plain(es[i]) && Denote(host, es[i], st) == Ok(values[i])
  }

  lemma OneDenotes(host: Host, e: Expr, value: Number, ctx: Context, st: State, k: nat)
    requires Nested(ctx, st) && Still(host) && Plain(e) && Denote(host, e, st) == Ok(value)
    ensures var v := Eval(host, e, ctx, Later(st, k), true);
            v.reply.exc.None? && v.reply.st == Later(st, k + Reads(e)) && v.value == value && Nested(v.reply.ctx, st)
  {
    hide Eval, Denote, Reads, Still, Plain;
    LaterDenotes(host, e, st, k);
    EvalDenotes(host, e, ctx, Later(st, k));
  }

  lemma WordsSpeakable(host: Host, reals: seq<Expr>, values: seq<Number>, st: State)
    requires DenoteAll(host, reals, values, st)
    ensures forall e | e in reals :: Plain(e)
    ensures reals != [] ==>
              && DenoteAll(host, reals[1..], values[1..], st)
              && Plain(reals[0]) && values != [] && Denote(host, reals[0], st) == Ok(values[0])
    ensures reals == [] ==> values == []
  {
    hide Denote, Plain;
  }

  lemma WordsStep(host: Host, reals: seq<Expr>, ctx: Context, st: State)
    requires Nested(ctx, st) && reals != []
    ensures Eval(host, reals[0], ctx, st, true).reply.exc.None? ==>
              var v := Eval(host, reals[0], ctx, st, true);
              var rest := EvalWords(host, reals[1..], v.reply.ctx, v.reply.st);
              EvalWords(host, reals, ctx, st) == (rest.0, [v.value] + rest.1)
  {
    hide Eval;
  }

  /** The words come out with these values. */
  ghost predicate WordsCome(host: Host, reals: seq<Expr>, values: seq<Number>, ctx: Context, st: State, k: nat)
    requires Nested(ctx, st) && forall e | e in reals :: Plain(e)
  {
    var r := EvalWords(host, reals, ctx, Later(st, k));
    r.0.exc.None? && r.0.st == Later(st, k + AllReads(reals)) && r.1 == values
  }

  lemma WordComes(host: Host, reals: seq<Expr>, values: seq<Number>, ctx: Context, st: State, k: nat)
    requires Nested(ctx, st) && Still(host) && reals != [] && values != []
    requires (forall e | e in reals :: Plain(e)) && (forall e | e in reals[1..] :: Plain(e))
    requires Plain(reals[0]) && Denote(host, reals[0], st) == Ok(values[0])
    requires var v := Eval(host, reals[0], ctx, Later(st, k), true);
             Nested(v.reply.ctx, st) && WordsCome(host, reals[1..], values[1..], v.reply.ctx, st, k + Reads(reals[0]))
    ensures WordsCome(host, reals, values, ctx, st, k)
  {
    assert !reals[0].StringLiteral?;
    hide Plain, Eval, Denote, Reads, Still;
    OneDenotes(host, reals[0], values[0], ctx, st, k);
    WordsStep(host, reals, ctx, Later(st, k));
    hide EvalWords;
  }

  lemma {:induction false} WordsDenote(host: Host, reals: seq<Expr>, values: seq<Number>, ctx: Context, st: State, k: nat)
    requires Nested(ctx, st) && Still(host) && DenoteAll(host, reals, values, st)
    ensures (forall e | e in reals :: Plain(e)) && WordsCome(host, reals, values, ctx, st, k)
    decreases |reals|
  {
    WordsSpeakable(host, reals, values, st);
    if reals != [] {
      WordsSpeakable(host, reals[1..], values[1..], st);
      hide WordsCome, Eval, Denote, Reads, Still, Plain, DenoteAll;
      OneDenotes(host, reals[0], values[0], ctx, st, k);
      var v := Eval(host, reals[0], ctx, Later(st, k), true);
      WordsDenote(host, reals[1..], values[1..], v.reply.ctx, st, k + Reads(reals[0]));
      WordComes(host, reals, values, ctx, st, k);
    }
  }

  /** A block tells the host each of its letters with the value its expression
      denotes, in order; what the host answers is what happens: its data, its
      exception, and the routine it calls before it returns. */
  lemma BlockSpeaks(host: Host, letters: seq<char>, reals: seq<Expr>, values: seq<Number>, ctx: Context, st: State)
    requires Nested(ctx, st) && Still(host) && DenoteAll(host, reals, values, st)
    ensures forall e | e in reals :: Plain(e)
    ensures var r := VisitStmt(host, Block(letters, reals), ctx, st);
            var clock := st.clock + AllReads(reals);
            var answer := host.respond(clock, Words(letters, values), st.data);
            var heard := st.(clock := clock + 1, data := answer.data);
            if answer.throws then r.exc == Some(Thrown(HostFailure)) && r.st == heard
            else if answer.routine.None? then r.exc.None? && r.st == heard
            else
              Nested(GLOBAL, heard)
              && var routine := answer.routine.value;
                 var v := Eval(host, Call(routine.callee, Literals(routine.args)), GLOBAL, heard, true);
                 v.reply.exc != Some(Terminated) ==>
                   var told := host.respond(v.reply.st.clock,
                                            Returned(if v.reply.exc.None? then Some(v.value) else None), v.reply.st.data);
                   && r.st == v.reply.st.(clock := v.reply.st.clock + 1, data := told.data)
                   && r.exc == (if v.reply.exc.Some? then v.reply.exc
                                else if told.throws then Some(Thrown(HostFailure)) else None)
  {
    assert Later(st, 0) == st;
    WordsDenote(host, reals, values, ctx, st, 0);
    assert VisitStmt(host, Block(letters, reals), ctx, st) == VisitBlock(host, letters, reals, ctx, st);
    var r := EvalWords(host, reals, ctx, st).0;
    var heard := Notify(host, r.ctx, r.st, Words(letters, values));
    var routine := host.respond(r.st.clock, Words(letters, values), r.st.data).routine;
    if heard.exc.None? && routine.Some? {
      CallBackTells(host, routine.value, heard.ctx, heard.st);
    }
    hide Eval, EvalWords, VisitStmt, Still, Denote, AllReads, CallBack, DenoteAll, Plain, Literals;
  }

  lemma CallBackTells(host: Host, routine: Routine, ctx: Context, st: State)
    requires Nested(ctx, st)
    ensures Nested(GLOBAL, st)
    ensures var r := CallBack(host, routine, ctx, st);
            var v := Eval(host, Call(routine.callee, Literals(routine.args)), GLOBAL, st, true);
            v.reply.exc != Some(Terminated) ==>
              var told := host.respond(v.reply.st.clock,
                                       Returned(if v.reply.exc.None? then Some(v.value) else None), v.reply.st.data);
              && r.st == v.reply.st.(clock := v.reply.st.clock + 1, data := told.data)
              && r.exc == (if v.reply.exc.Some? then v.reply.exc
                           else if told.throws then Some(Thrown(HostFailure)) else None)
  {
    hide Eval;
  }

  /** What `print` passes on: strings as they are, everything else by value. */
  ghost predicate ItemsDenote(host: Host, args: seq<Expr>, items: seq<Expr>, st: State) {
    && |args| == |items|
    && forall i | 0 <= i < |args| ::
         if args[i].StringLiteral? then items[i] == args[i]
         else Plain(args[i]) && items[i].Literal? && Denote(host, args[i], st) == Ok(items[i].value)
  }

  lemma ItemsSpeakable(host: Host, args: seq<Expr>, items: seq<Expr>, st: State)
    requires ItemsDenote(host, args, items, st)
    ensures forall e | e in args :: Plain(e) || e.StringLiteral?
    ensures args != [] ==> ItemsDenote(host, args[1..], items[1..], st)
    ensures args != [] ==>
              if args[0].StringLiteral? then items != [] && items[0] == args[0]
              else Plain(args[0]) && items != [] && items[0].Literal? && Denote(host, args[0], st) == Ok(items[0].value)
    ensures args == [] ==> items == []
  {
    hide Denote, Plain;
  }

  lemma ItemsStep(host: Host, args: seq<Expr>, ctx: Context, st: State)
    requires Nested(ctx, st) && args != []
    ensures args[0].StringLiteral? ==>
              var rest := EvalItems(host, args[1..], ctx, st);
              EvalItems(host, args, ctx, st) == (rest.0, [args[0]] + rest.1)
    ensures !args[0].StringLiteral? && Eval(host, args[0], ctx, st, true).reply.exc.None? ==>
              var v := Eval(host, args[0], ctx, st, true);
              var rest := EvalItems(host, args[1..], v.reply.ctx, v.reply.st);
              EvalItems(host, args, ctx, st) == (rest.0, [Literal(v.value)] + rest.1)
  {
    hide Eval;
  }

  /** The arguments come out as these items. */
  ghost predicate ItemsCome(host: Host, args: seq<Expr>, items: seq<Expr>, ctx: Context, st: State, k: nat)
    requires Nested(ctx, st) && forall e | e in args :: Plain(e) || e.StringLiteral?
  {
    var r := EvalItems(host, args, ctx, Later(st, k));
    r.0.exc.None? && r.0.st == Later(st, k + AllReads(args)) && r.1 == items
  }

  lemma StringComes(host: Host, args: seq<Expr>, items: seq<Expr>, ctx: Context, st: State, k: nat)
    requires Nested(ctx, st) && args != [] && items != [] && args[0].StringLiteral? && items[0] == args[0]
    requires (forall e | e in args :: Plain(e) || e.StringLiteral?) && (forall e | e in args[1..] :: Plain(e) || e.StringLiteral?)
    requires ItemsCome(host, args[1..], items[1..], ctx, st, k)
    ensures ItemsCome(host, args, items, ctx, st, k)
  {
    hide Plain;
    ItemsStep(host, args, ctx, Later(st, k));
    hide EvalItems;
  }

  lemma RealComes(host: Host, args: seq<Expr>, items: seq<Expr>, ctx: Context, st: State, k: nat)
    requires Nested(ctx, st) && Still(host) && args != [] && items != [] && items[0].Literal?
    requires (forall e | e in args :: Plain(e) || e.StringLiteral?) && (forall e | e in args[1..] :: Plain(e) || e.StringLiteral?)
    requires !args[0].StringLiteral? && Plain(args[0]) && Denote(host, args[0], st) == Ok(items[0].value)
    requires var v := Eval(host, args[0], ctx, Later(st, k), true);
             Nested(v.reply.ctx, st) && ItemsCome(host, args[1..], items[1..], v.reply.ctx, st, k + Reads(args[0]))
    ensures ItemsCome(host, args, items, ctx, st, k)
  {
    hide Plain, Eval, Denote, Reads, Still;
    OneDenotes(host, args[0], items[0].value, ctx, st, k);
    ItemsStep(host, args, ctx, Later(st, k));
    hide EvalItems;
  }

  lemma {:induction false} ItemsEvaluate(host: Host, args: seq<Expr>, items: seq<Expr>, ctx: Context, st: State, k: nat)
    requires Nested(ctx, st) && Still(host) && ItemsDenote(host, args, items, st)
    ensures (forall e | e in args :: Plain(e) || e.StringLiteral?) && ItemsCome(host, args, items, ctx, st, k)
    decreases |args|
  {
    ItemsSpeakable(host, args, items, st);
    if args != [] {
      ItemsSpeakable(host, args[1..], items[1..], st);
      hide ItemsCome, Eval, Denote, Reads, Still, Plain, ItemsDenote;
      if args[0].StringLiteral? {
        ItemsEvaluate(host, args[1..], items[1..], ctx, st, k);
        StringComes(host, args, items, ctx, st, k);
      } else {
        OneDenotes(host, args[0], items[0].value, ctx, st, k);
        var v := Eval(host, args[0], ctx, Later(st, k), true);
        ItemsEvaluate(host, args[1..], items[1..], v.reply.ctx, st, k + Reads(args[0]));
        RealComes(host, args, items, ctx, st, k);
      }
    }
  }

  /** `print` and `alert` synchronize, evaluate their arguments and pass them to the host. */
  lemma PrintSpeaks(host: Host, callee: string, args: seq<Expr>, items: seq<Expr>, ctx: Context, st: State)
    requires Nested(ctx, st) && Still(host) && ItemsDenote(host, args, items, st)
    requires callee == "print" || callee == "alert"
    ensures forall e | e in args :: Plain(e) || e.StringLiteral?
    ensures var r := VisitExpr(host, Call(callee, args), ctx, st);
            var clock := st.clock + 1 + AllReads(args);
            var answer := host.respond(clock, Print(items, callee == "alert"), st.data);
            && r.st == st.(clock := clock + 1, data := answer.data)
            && r.exc == if answer.throws then Some(Thrown(HostFailure)) else None
  {
    PrintIsVisited(host, callee, args, ctx, st);
    CallPrintSpeaks(host, callee == "alert", args, items, ctx.(result := Finite(0.0)), st);
    hide *;
  }

  lemma CallPrintSpeaks(host: Host, alert: bool, args: seq<Expr>, items: seq<Expr>, ctx: Context, st: State)
    requires Nested(ctx, st) && Still(host) && ItemsDenote(host, args, items, st)
    ensures forall e | e in args :: Plain(e) || e.StringLiteral?
    ensures var r := CallPrint(host, alert, args, ctx, st);
            var clock := st.clock + 1 + AllReads(args);
            var answer := host.respond(clock, Print(items, alert), st.data);
            && r.st == st.(clock := clock + 1, data := answer.data)
            && r.exc == if answer.throws then Some(Thrown(HostFailure)) else None
  {
    assert Notify(host, ctx, st, Synchronize) == Reply(ctx, Later(st, 1), None);
    ItemsEvaluate(host, args, items, ctx, st, 1);
    hide EvalItems, Still, Denote, AllReads, ItemsDenote, Plain;
  }

  lemma PrintIsVisited(host: Host, callee: string, args: seq<Expr>, ctx: Context, st: State)
    requires Nested(ctx, st) && (callee == "print" || callee == "alert")
    ensures VisitExpr(host, Call(callee, args), ctx, st)
         == CallPrint(host, callee == "alert", args, ctx.(result := Finite(0.0)), st)
  {
    assert VisitExpr(host, Call(callee, args), ctx, st) == VisitCall(host, callee, args, ctx, st);
    hide VisitExpr, CallPrint, CallSub, FindSub;
  }
}
