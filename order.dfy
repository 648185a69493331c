/** The order "b is a with marks only added": the same tree shape, the same
    span identities, and at every span position the marks of `a` are a subset
    of those of `b`. Opaque nodes may be rebuilt by their own folds, so for
    them only the span is compared. Every fold of the marker returns a tree
    above its input in this order. */
module Order {
  import opened Ast

  predicate LeSpan(a: Span, b: Span) {
    a.id == b.id && a.marks <= b.marks
  }

  predicate LeExt(a: Ext, b: Ext) {
    LeSpan(a.span, b.span)
  }

  predicate LeOptExt(a: Option<Ext>, b: Option<Ext>) {
    match a
    case None => b.None?
    case Some(x) => b.Some? && LeExt(x, b.value)
  }

  predicate LeStmt(a: Stmt, b: Stmt)
    decreases SizeStmt(a), 1
  {
    a == b ||
    match a
    case Expr(x) => b.Expr? && LeSpan(x.span, b.exprStmt.span) && LeExt(x.expr, b.exprStmt.expr)
    case Block(x) => b.Block? && LeBlock(x, b.blockStmt)
    case If(x) => b.If? && LeIf(x, b.ifStmt)
    case Return(x) => b.Return? && LeSpan(x.span, b.returnStmt.span) && LeOptExt(x.arg, b.returnStmt.arg)
    case Throw(x) => b.Throw? && LeSpan(x.span, b.throwStmt.span) && LeExt(x.arg, b.throwStmt.arg)
    case Labeled(x) => b.Labeled? && LeLabeled(x, b.labeledStmt)
    case Switch(x) => b.Switch? && LeSwitch(x, b.switchStmt)
    case Try(x) => b.Try? && LeTry(x, b.tryStmt)
    case While(x) => b.While? && LeLoop(x, b.whileStmt)
    case DoWhile(x) => b.DoWhile? && LeLoop(x, b.doWhileStmt)
    case For(x) => b.For? && LeFor(x, b.forStmt)
    case ForIn(x) => b.ForIn? && LeForEach(x, b.forInStmt)
    case ForOf(x) => b.ForOf? && LeForEach(x, b.forOfStmt)
    case Debugger(x) => b.Debugger? && LeSpan(x.span, b.debuggerStmt.span)
    case With(x) => b.With? && LeWith(x, b.withStmt)
    case Break(x) => b.Break? && LeJump(x, b.breakStmt)
    case Continue(x) => b.Continue? && LeJump(x, b.continueStmt)
  }

  predicate LeIf(a: IfStmt, b: IfStmt)
    decreases SizeStmt(If(a)), 0
  {
    LeSpan(a.span, b.span) && LeExt(a.test, b.test) && LeStmt(a.cons, b.cons) && LeOptStmt(a.alt, b.alt)
  }

  predicate LeLabeled(a: LabeledStmt, b: LabeledStmt)
    decreases SizeStmt(Labeled(a)), 0
  {
    LeSpan(a.span, b.span) && a.ident == b.ident && LeStmt(a.body, b.body)
  }

  predicate LeSwitch(a: SwitchStmt, b: SwitchStmt)
    decreases SizeStmt(Switch(a)), 0
  {
    LeSpan(a.span, b.span) && LeExt(a.discriminant, b.discriminant) && LeCases(a.cases, b.cases)
  }

  predicate LeTry(a: TryStmt, b: TryStmt)
    decreases SizeStmt(Try(a)), 0
  {
    LeSpan(a.span, b.span) && LeBlock(a.block, b.block) &&
    LeOptCatch(a.handler, b.handler) && LeOptBlock(a.finalizer, b.finalizer)
  }

  predicate LeLoop(a: LoopStmt, b: LoopStmt)
    decreases SizeStmt(a.body), 2
  {
    LeSpan(a.span, b.span) && LeExt(a.test, b.test) && LeStmt(a.body, b.body)
  }

  predicate LeFor(a: ForStmt, b: ForStmt)
    decreases SizeStmt(For(a)), 0
  {
    LeSpan(a.span, b.span) && LeOptExt(a.init, b.init) && LeOptExt(a.test, b.test) &&
    LeOptExt(a.update, b.update) && LeStmt(a.body, b.body)
  }

  predicate LeForEach(a: ForEachStmt, b: ForEachStmt)
    decreases SizeStmt(a.body), 2
  {
    LeSpan(a.span, b.span) && LeExt(a.left, b.left) && LeExt(a.right, b.right) && LeStmt(a.body, b.body)
  }

  predicate LeWith(a: WithStmt, b: WithStmt)
    decreases SizeStmt(With(a)), 0
  {
    LeSpan(a.span, b.span) && LeExt(a.obj, b.obj) && LeStmt(a.body, b.body)
  }

  predicate LeJump(a: JumpStmt, b: JumpStmt) {
    LeSpan(a.span, b.span) && a.ident == b.ident
  }

  predicate LeStmts(a: seq<Stmt>, b: seq<Stmt>)
    decreases SizeStmts(a), 1
  {
    |a| == |b| && (|a| == 0 || (LeStmt(a[0], b[0]) && LeStmts(a[1..], b[1..])))
  }

  predicate LeOptStmt(a: Option<Stmt>, b: Option<Stmt>)
    decreases SizeOptStmt(a), 1
  {
    match a
    case None => b.None?
    case Some(x) => b.Some? && LeStmt(x, b.value)
  }

  predicate LeBlock(a: BlockStmt, b: BlockStmt)
    decreases SizeBlock(a), 1
  {
    a == b || (LeSpan(a.span, b.span) && LeStmts(a.stmts, b.stmts))
  }

  predicate LeOptBlock(a: Option<BlockStmt>, b: Option<BlockStmt>)
    decreases SizeOptBlock(a), 1
  {
    match a
    case None => b.None?
    case Some(x) => b.Some? && LeBlock(x, b.value)
  }

  predicate LeCase(a: SwitchCase, b: SwitchCase)
    decreases SizeCase(a), 1
  {
    a == b || (LeSpan(a.span, b.span) && LeOptExt(a.test, b.test) && LeStmts(a.cons, b.cons))
  }

  predicate LeCases(a: seq<SwitchCase>, b: seq<SwitchCase>)
    decreases SizeCases(a), 1
  {
    |a| == |b| && (|a| == 0 || (LeCase(a[0], b[0]) && LeCases(a[1..], b[1..])))
  }

  predicate LeCatch(a: CatchClause, b: CatchClause)
    decreases SizeCatch(a), 1
  {
    LeSpan(a.span, b.span) && LeOptExt(a.param, b.param) && LeBlock(a.body, b.body)
  }

  predicate LeOptCatch(a: Option<CatchClause>, b: Option<CatchClause>)
    decreases SizeOptCatch(a), 1
  {
    match a
    case None => b.None?
    case Some(x) => b.Some? && LeCatch(x, b.value)
  }

  // ---------------------------------------------------------------------------
  // The order is transitive: a fold followed by a marking-phase re-fold still
  // only adds marks.

  lemma {:induction false} LeStmtTrans(a: Stmt, b: Stmt, c: Stmt)
    requires LeStmt(a, b) && LeStmt(b, c)
    ensures LeStmt(a, c)
    decreases SizeStmt(a), 1
  {
    if a != b && b != c {
      match a
      case Block(x) => LeBlockTrans(x, b.blockStmt, c.blockStmt);
      case If(x) =>
        LeStmtTrans(x.cons, b.ifStmt.cons, c.ifStmt.cons);
        LeOptStmtTrans(x.alt, b.ifStmt.alt, c.ifStmt.alt);
      case Labeled(x) => LeStmtTrans(x.body, b.labeledStmt.body, c.labeledStmt.body);
      case Switch(x) => LeCasesTrans(x.cases, b.switchStmt.cases, c.switchStmt.cases);
      case Try(x) => LeTryTrans(x, b.tryStmt, c.tryStmt);
      case While(x) => LeStmtTrans(x.body, b.whileStmt.body, c.whileStmt.body);
      case DoWhile(x) => LeStmtTrans(x.body, b.doWhileStmt.body, c.doWhileStmt.body);
      case For(x) => LeStmtTrans(x.body, b.forStmt.body, c.forStmt.body);
      case ForIn(x) => LeStmtTrans(x.body, b.forInStmt.body, c.forInStmt.body);
      case ForOf(x) => LeStmtTrans(x.body, b.forOfStmt.body, c.forOfStmt.body);
      case With(x) => LeStmtTrans(x.body, b.withStmt.body, c.withStmt.body);
      case _ =>
    }
  }

  lemma {:induction false} LeTryTrans(a: TryStmt, b: TryStmt, c: TryStmt)
    requires LeTry(a, b) && LeTry(b, c)
    ensures LeTry(a, c)
    decreases SizeStmt(Try(a)), 0
  {
    LeBlockTrans(a.block, b.block, c.block);
    LeOptCatchTrans(a.handler, b.handler, c.handler);
    LeOptBlockTrans(a.finalizer, b.finalizer, c.finalizer);
  }

  lemma {:induction false} LeStmtsTrans(a: seq<Stmt>, b: seq<Stmt>, c: seq<Stmt>)
    requires LeStmts(a, b) && LeStmts(b, c)
    ensures LeStmts(a, c)
    decreases SizeStmts(a)
  {
    if |a| > 0 {
      LeStmtTrans(a[0], b[0], c[0]);
      LeStmtsTrans(a[1..], b[1..], c[1..]);
    }
  }

  lemma {:induction false} LeOptStmtTrans(a: Option<Stmt>, b: Option<Stmt>, c: Option<Stmt>)
    requires LeOptStmt(a, b) && LeOptStmt(b, c)
    ensures LeOptStmt(a, c)
    decreases SizeOptStmt(a)
  {
    if a.Some? {
      LeStmtTrans(a.value, b.value, c.value);
    }
  }

  lemma {:induction false} LeBlockTrans(a: BlockStmt, b: BlockStmt, c: BlockStmt)
    requires LeBlock(a, b) && LeBlock(b, c)
    ensures LeBlock(a, c)
    decreases SizeBlock(a)
  {
    if a != b && b != c {
      LeStmtsTrans(a.stmts, b.stmts, c.stmts);
    }
  }

  lemma {:induction false} LeOptBlockTrans(a: Option<BlockStmt>, b: Option<BlockStmt>, c: Option<BlockStmt>)
    requires LeOptBlock(a, b) && LeOptBlock(b, c)
    ensures LeOptBlock(a, c)
    decreases SizeOptBlock(a)
  {
    if a.Some? {
      LeBlockTrans(a.value, b.value, c.value);
    }
  }

  lemma {:induction false} LeCaseTrans(a: SwitchCase, b: SwitchCase, c: SwitchCase)
    requires LeCase(a, b) && LeCase(b, c)
    ensures LeCase(a, c)
    decreases SizeCase(a)
  {
    if a != b && b != c {
      LeStmtsTrans(a.cons, b.cons, c.cons);
    }
  }

  lemma {:induction false} LeCasesTrans(a: seq<SwitchCase>, b: seq<SwitchCase>, c: seq<SwitchCase>)
    requires LeCases(a, b) && LeCases(b, c)
    ensures LeCases(a, c)
    decreases SizeCases(a)
  {
    if |a| > 0 {
      LeCaseTrans(a[0], b[0], c[0]);
      LeCasesTrans(a[1..], b[1..], c[1..]);
    }
  }

  lemma {:induction false} LeOptCatchTrans(a: Option<CatchClause>, b: Option<CatchClause>, c: Option<CatchClause>)
    requires LeOptCatch(a, b) && LeOptCatch(b, c)
    ensures LeOptCatch(a, c)
    decreases SizeOptCatch(a)
  {
    if a.Some? {
      LeCatchTrans(a.value, b.value, c.value);
    }
  }

  lemma {:induction false} LeCatchTrans(a: CatchClause, b: CatchClause, c: CatchClause)
    requires LeCatch(a, b) && LeCatch(b, c)
    ensures LeCatch(a, c)
    decreases SizeCatch(a)
  {
    LeBlockTrans(a.body, b.body, c.body);
  }

  // ---------------------------------------------------------------------------
  // What the order says about a node's own span and about sequences.

  /** A statement's own span only gains marks. */
  lemma LeStmtSpan(a: Stmt, b: Stmt)
    requires LeStmt(a, b)
    ensures LeSpan(SpanOf(a), SpanOf(b))
  {
  }

  /** Statement lists keep their length and order; each element only gains marks. */
  lemma {:induction false} LeStmtsPointwise(a: seq<Stmt>, b: seq<Stmt>)
    ensures LeStmts(a, b) <==> |a| == |b| && forall i :: 0 <= i < |a| ==> LeStmt(a[i], b[i])
    decreases SizeStmts(a)
  {
    if |a| > 0 && |a| == |b| {
      LeStmtsPointwise(a[1..], b[1..]);
      assert forall i :: 1 <= i < |a| ==> a[1..][i - 1] == a[i] && b[1..][i - 1] == b[i];
    }
  }

  /** Case lists keep their length and order; each case only gains marks. */
  lemma {:induction false} LeCasesPointwise(a: seq<SwitchCase>, b: seq<SwitchCase>)
    ensures LeCases(a, b) <==> |a| == |b| && forall i :: 0 <= i < |a| ==> LeCase(a[i], b[i])
    decreases SizeCases(a)
  {
    if |a| > 0 && |a| == |b| {
      LeCasesPointwise(a[1..], b[1..]);
      assert forall i :: 1 <= i < |a| ==> a[1..][i - 1] == a[i] && b[1..][i - 1] == b[i];
    }
  }
}
