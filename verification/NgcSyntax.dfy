/** Abstract syntax of the NGC language, as the parser hands it to the evaluator. */
module NgcSyntax {
  import opened Text
  import opened Doubles

  datatype Operator = AND | OR | XOR | EQ | NE | LT | LE | GT | GE | ADD | SUB | MUL | DIV | MOD

  /** BinaryExpression::Op; assignment is evaluated unlike all the others. */
  datatype BinaryOp = ASSIGN | Compute(operator: Operator)

  datatype UnaryOp = NEGATIVE | POSITIVE | ADDRESS_OF

  datatype Expr =
    | Literal(value: Number)
    | StringLiteral(text: string)
    | Named(name: string)
    | Numeric(address: Expr)
    | Unary(unary: UnaryOp, operand: Expr)
    | Binary(op: BinaryOp, left: Expr, right: Expr)
    | Grouping(inner: Expr)
    | Call(callee: string, args: seq<Expr>)

  datatype Stmt =
    | Evaluate(expression: Expr)
    | Compound(body: seq<Stmt>)
    | Alias(variable: string, target: Expr)
    | Let(variable: string, init: Option<Expr>)
    | Block(letters: seq<char>, reals: seq<Expr>)
    | Return(returned: Expr)
    | Break
    | Continue
    | If(condition: Expr, thn: Stmt, els: Option<Stmt>)
    | While(condition: Expr, loop: Stmt)
    | Declare(sub: Sub)

  datatype Sub = Sub(name: string, params: seq<string>, body: seq<Stmt>)

  datatype Signature = Signature(name: string, count: nat)

  function SignatureOf(sub: Sub): Signature { Signature(sub.name, |sub.params|) }

  predicate IsVariable(e: Expr) { e.Named? || e.Numeric? }

  /** No `alias` statement anywhere inside. */
  predicate AliasFree(s: Stmt) {
    match s
    case Alias(_, _) => false
    case Compound(body) => forall t | t in body :: AliasFree(t)
    case If(_, thn, els) => AliasFree(thn) && (els.Some? ==> AliasFree(els.value))
    case While(_, loop) => AliasFree(loop)
    case Declare(sub) => AliasFreeSub(sub)
    case _ => true
  }

  predicate AliasFreeSub(sub: Sub) { forall t | t in sub.body :: AliasFree(t) }

  /** A statement whose aliases, if any, stand directly in the context it is
      executed in: itself, or inside compound statements alone. */
  predicate AliasesOutside(s: Stmt) {
    match s
    case Alias(_, _) => true
    case Compound(body) => forall t | t in body :: AliasesOutside(t)
    case _ => AliasFree(s)
  }

  /** Every alias of the program is executed in the global context. */
  predicate GlobalAliasesOnly(program: seq<Stmt>) {
    forall s | s in program :: AliasesOutside(s)
  }
}
