/** The statement nodes the dead-code-elimination marker folds over, their spans,
    a size measure used for termination, and the "only gains marks" order
    between two versions of the same tree. */
module Ast {

  /** A hygiene mark; the retention mark of the pass is one of them. */
  type Mark = nat

  /** A node's location: a stable identity plus the set of marks applied to it. */
  datatype Span = Span(id: nat, marks: set<Mark>)

  datatype Option<+T> = None | Some(value: T)

  /** A node whose fold is not part of the statement rules: an expression, a
      pattern or a variable declaration. Only its span is inspected here;
      `shape` stands for the rest of the sub-tree, which the statement rules
      never look at. */
  datatype Ext = Ext(span: Span, shape: nat)

  type Ident = string

  /** The statement kinds handled by the marker, one constructor per node type. */
  datatype Stmt =
    | Expr(exprStmt: ExprStmt)
    | Block(blockStmt: BlockStmt)
    | If(ifStmt: IfStmt)
    | Return(returnStmt: ReturnStmt)
    | Throw(throwStmt: ThrowStmt)
    | Labeled(labeledStmt: LabeledStmt)
    | Switch(switchStmt: SwitchStmt)
    | Try(tryStmt: TryStmt)
    | While(whileStmt: LoopStmt)
    | DoWhile(doWhileStmt: LoopStmt)
    | For(forStmt: ForStmt)
    | ForIn(forInStmt: ForEachStmt)
    | ForOf(forOfStmt: ForEachStmt)
    | Debugger(debuggerStmt: DebuggerStmt)
    | With(withStmt: WithStmt)
    | Break(breakStmt: JumpStmt)
    | Continue(continueStmt: JumpStmt)

  datatype ExprStmt = ExprStmt(span: Span, expr: Ext)
  datatype BlockStmt = BlockStmt(span: Span, stmts: seq<Stmt>)
  datatype IfStmt = IfStmt(span: Span, test: Ext, cons: Stmt, alt: Option<Stmt>)
  datatype ReturnStmt = ReturnStmt(span: Span, arg: Option<Ext>)
  datatype ThrowStmt = ThrowStmt(span: Span, arg: Ext)
  datatype LabeledStmt = LabeledStmt(span: Span, ident: Ident, body: Stmt)
  datatype SwitchStmt = SwitchStmt(span: Span, discriminant: Ext, cases: seq<SwitchCase>)
  /** `test` is absent for the `default` case. */
  datatype SwitchCase = SwitchCase(span: Span, test: Option<Ext>, cons: seq<Stmt>)
  datatype TryStmt = TryStmt(span: Span, block: BlockStmt, handler: Option<CatchClause>, finalizer: Option<BlockStmt>)
  datatype CatchClause = CatchClause(span: Span, param: Option<Ext>, body: BlockStmt)
  /** Shared by `while` and `do ... while`, which have the same fields and rule. */
  datatype LoopStmt = LoopStmt(span: Span, test: Ext, body: Stmt)
  datatype ForStmt = ForStmt(span: Span, init: Option<Ext>, test: Option<Ext>, update: Option<Ext>, body: Stmt)
  /** Shared by `for ... in` and `for ... of`, which have the same fields and rule. */
  datatype ForEachStmt = ForEachStmt(span: Span, left: Ext, right: Ext, body: Stmt)
  datatype DebuggerStmt = DebuggerStmt(span: Span)
  datatype WithStmt = WithStmt(span: Span, obj: Ext, body: Stmt)
  /** Shared by `break` and `continue`. */
  datatype JumpStmt = JumpStmt(span: Span, ident: Option<Ident>)

  /** The span of a statement, whatever its kind. */
  function SpanOf(s: Stmt): Span {
    match s
    case Expr(n) => n.span
    case Block(n) => n.span
    case If(n) => n.span
    case Return(n) => n.span
    case Throw(n) => n.span
    case Labeled(n) => n.span
    case Switch(n) => n.span
    case Try(n) => n.span
    case While(n) => n.span
    case DoWhile(n) => n.span
    case For(n) => n.span
    case ForIn(n) => n.span
    case ForOf(n) => n.span
    case Debugger(n) => n.span
    case With(n) => n.span
    case Break(n) => n.span
    case Continue(n) => n.span
  }

  // ---------------------------------------------------------------------------
  // Size: the number of statement-level nodes, a termination measure for folds
  // that re-fold an already folded child.

  function SizeStmt(s: Stmt): nat {
    match s
    case Expr(_) => 1
    case Block(n) => 1 + SizeBlock(n)
    case If(n) => 1 + SizeStmt(n.cons) + SizeOptStmt(n.alt)
    case Return(_) => 1
    case Throw(_) => 1
    case Labeled(n) => 1 + SizeStmt(n.body)
    case Switch(n) => 1 + SizeCases(n.cases)
    case Try(n) => 1 + SizeBlock(n.block) + SizeOptCatch(n.handler) + SizeOptBlock(n.finalizer)
    case While(n) => 1 + SizeStmt(n.body)
    case DoWhile(n) => 1 + SizeStmt(n.body)
    case For(n) => 1 + SizeStmt(n.body)
    case ForIn(n) => 1 + SizeStmt(n.body)
    case ForOf(n) => 1 + SizeStmt(n.body)
    case Debugger(_) => 1
    case With(n) => 1 + SizeStmt(n.body)
    case Break(_) => 1
    case Continue(_) => 1
  }

  function SizeStmts(ss: seq<Stmt>): nat {
    if |ss| == 0 then 1 else 1 + SizeStmt(ss[0]) + SizeStmts(ss[1..])
  }

  function SizeOptStmt(a: Option<Stmt>): nat {
    match a
    case None => 1
    case Some(s) => 1 + SizeStmt(s)
  }

  function SizeBlock(b: BlockStmt): nat {
    1 + SizeStmts(b.stmts)
  }

  function SizeOptBlock(a: Option<BlockStmt>): nat {
    match a
    case None => 1
    case Some(b) => 1 + SizeBlock(b)
  }

  function SizeCase(k: SwitchCase): nat {
    1 + SizeStmts(k.cons)
  }

  function SizeCases(ks: seq<SwitchCase>): nat {
    if |ks| == 0 then 1 else 1 + SizeCase(ks[0]) + SizeCases(ks[1..])
  }

  function SizeCatch(h: CatchClause): nat {
    1 + SizeBlock(h.body)
  }

  function SizeOptCatch(a: Option<CatchClause>): nat {
    match a
    case None => 1
    case Some(h) => 1 + SizeCatch(h)
  }
}
