/** The statement folds of the dead-code-elimination pass: each decides whether
    a statement's span gets the retention mark (`used_mark`) and rebuilds the
    node with its children folded.

    The folder's mutable state is split in two. The marking-phase flag is the
    `marking` parameter: the only code that changes it is
    `fold_in_marking_phase`, which sets it for the duration of one child fold
    and then restores the previous value, so it behaves as a lexically scoped
    flag. Everything else the folder carries is the opaque state `S`, threaded
    through every fold from left to right in the order the source visits the
    fields. */
module Dce {
  import opened Ast
  import opened Order

  /** The pass configuration and the collaborators whose code is not part of
      the statement rules: `shouldInclude` is the side-effect oracle on an
      expression statement's expression, and `foldExt` is the fold of an
      expression, pattern or declaration (in either phase). */
  datatype Ctx<!S(!new)> = Ctx(
    usedMark: Mark,
    shouldInclude: (bool, S, Ext) -> bool,
    foldExt: (bool, S, Ext) -> (Ext, S))
  {
    /** The external folds never remove a mark and keep the span's identity. */
    ghost predicate Valid() {
      forall marking, d, e :: LeExt(e, foldExt(marking, d, e).0)
    }

    /** `is_marked`: the span carries the retention mark. */
    predicate Marked(sp: Span) {
      usedMark in sp.marks
    }

    /** `apply_mark(used_mark)`. */
    function Mark(sp: Span): (r: Span)
      ensures r.id == sp.id && Marked(r)
      ensures Marked(sp) ==> r == sp
      ensures forall k :: k in r.marks <==> k in sp.marks || k == usedMark
    {
      sp.(marks := sp.marks + {usedMark})
    }

    predicate MarkedStmt(s: Stmt) {
      Marked(SpanOf(s))
    }

    /** An absent optional child has no span of its own and counts as unmarked. */
    predicate MarkedOptStmt(a: Option<Stmt>) {
      a.Some? && MarkedStmt(a.value)
    }

    predicate MarkedOptExt(a: Option<Ext>) {
      a.Some? && Marked(a.value.span)
    }

    predicate MarkedOptBlock(a: Option<BlockStmt>) {
      a.Some? && Marked(a.value.span)
    }

    predicate MarkedOptCatch(a: Option<CatchClause>) {
      a.Some? && Marked(a.value.span)
    }
  }

  // ---------------------------------------------------------------------------
  // The retention table: for each aggregating kind, the designated children of
  // which at least one must be marked for the node itself to be marked.

  predicate BlockRetains<S(!new)>(c: Ctx<S>, n: BlockStmt) {
    exists i :: 0 <= i < |n.stmts| && c.MarkedStmt(n.stmts[i])
  }

  predicate IfRetains<S(!new)>(c: Ctx<S>, n: IfStmt) {
    c.Marked(n.test.span) || c.MarkedStmt(n.cons) || c.MarkedOptStmt(n.alt)
  }

  predicate LabeledRetains<S(!new)>(c: Ctx<S>, n: LabeledStmt) {
    c.MarkedStmt(n.body)
  }

  predicate SwitchRetains<S(!new)>(c: Ctx<S>, n: SwitchStmt) {
    c.Marked(n.discriminant.span) || exists i :: 0 <= i < |n.cases| && c.Marked(n.cases[i].span)
  }

  predicate CaseRetains<S(!new)>(c: Ctx<S>, k: SwitchCase) {
    c.MarkedOptExt(k.test) || exists i :: 0 <= i < |k.cons| && c.MarkedStmt(k.cons[i])
  }

  predicate TryRetains<S(!new)>(c: Ctx<S>, n: TryStmt) {
    c.Marked(n.block.span) || c.MarkedOptCatch(n.handler) || c.MarkedOptBlock(n.finalizer)
  }

  predicate LoopRetains<S(!new)>(c: Ctx<S>, n: LoopStmt) {
    c.Marked(n.test.span) || c.MarkedStmt(n.body)
  }

  /** A `for` without a test is an unconditional loop and is always retained. */
  predicate ForRetains<S(!new)>(c: Ctx<S>, n: ForStmt) {
    n.test.None? || c.MarkedOptExt(n.init) || c.MarkedOptExt(n.test) ||
    c.MarkedOptExt(n.update) || c.MarkedStmt(n.body)
  }

  predicate ForEachRetains<S(!new)>(c: Ctx<S>, n: ForEachStmt) {
    c.Marked(n.left.span) || c.Marked(n.right.span) || c.MarkedStmt(n.body)
  }

  // ---------------------------------------------------------------------------
  // `iter().any(...)` over the folded lists.

  function AnyMarked<S(!new)>(c: Ctx<S>, ss: seq<Stmt>): (r: bool)
    ensures r <==> exists i :: 0 <= i < |ss| && c.MarkedStmt(ss[i])
  {
    if |ss| == 0 then false else c.MarkedStmt(ss[0]) || AnyMarked(c, ss[1..])
  }

  function AnyCaseMarked<S(!new)>(c: Ctx<S>, ks: seq<SwitchCase>): (r: bool)
    ensures r <==> exists i :: 0 <= i < |ks| && c.Marked(ks[i].span)
  {
    if |ks| == 0 then false else c.Marked(ks[0].span) || AnyCaseMarked(c, ks[1..])
  }

  // ---------------------------------------------------------------------------
  // Folds of the opaque leaves.

  function FoldExt<S(!new)>(c: Ctx<S>, marking: bool, d: S, e: Ext): (r: (Ext, S))
    requires c.Valid()
    ensures LeExt(e, r.0)
  {
    c.foldExt(marking, d, e)
  }

  function FoldOptExt<S(!new)>(c: Ctx<S>, marking: bool, d: S, a: Option<Ext>): (r: (Option<Ext>, S))
    requires c.Valid()
    ensures LeOptExt(a, r.0)
  {
    match a
    case None => (None, d)
    case Some(e) => var (e', d') := FoldExt(c, marking, d, e); (Some(e'), d')
  }

  // ---------------------------------------------------------------------------
  // The statement folds. Each returns the rebuilt node and the state after it.
  // Every one returns a node above its input in the `Order` relation, of the
  // same size, and leaves an already marked node and the state untouched.

  /** `Fold<Stmt>`: dispatch on the statement kind. `debugger`, `with`,
      `break` and `continue` are always marked and their children are not
      visited. */
  function FoldStmt<S(!new)>(c: Ctx<S>, marking: bool, d: S, s: Stmt): (r: (Stmt, S))
    requires c.Valid()
    decreases SizeStmt(s), 2
    ensures LeStmt(s, r.0) && SizeStmt(r.0) == SizeStmt(s)
    ensures c.MarkedStmt(s) ==> r == (s, d)
  {
    match s
    case Expr(n) => var (n', d') := FoldExprStmt(c, marking, d, n); (Expr(n'), d')
    case Block(n) => var (n', d') := FoldBlock(c, marking, d, n); (Block(n'), d')
    case If(n) => var (n', d') := FoldIf(c, marking, d, n); (If(n'), d')
    case Return(n) => var (n', d') := FoldReturn(c, marking, d, n); (Return(n'), d')
    case Throw(n) => var (n', d') := FoldThrow(c, marking, d, n); (Throw(n'), d')
    case Labeled(n) => var (n', d') := FoldLabeled(c, marking, d, n); (Labeled(n'), d')
    case Switch(n) => var (n', d') := FoldSwitch(c, marking, d, n); (Switch(n'), d')
    case Try(n) => var (n', d') := FoldTry(c, marking, d, n); (Try(n'), d')
    case While(n) => var (n', d') := FoldLoop(c, marking, d, n); (While(n'), d')
    case DoWhile(n) => var (n', d') := FoldLoop(c, marking, d, n); (DoWhile(n'), d')
    case For(n) => var (n', d') := FoldFor(c, marking, d, n); (For(n'), d')
    case ForIn(n) => var (n', d') := FoldForEach(c, marking, d, n); (ForIn(n'), d')
    case ForOf(n) => var (n', d') := FoldForEach(c, marking, d, n); (ForOf(n'), d')
    case Debugger(n) => (Debugger(n.(span := c.Mark(n.span))), d)
    case With(n) => (With(n.(span := c.Mark(n.span))), d)
    case Break(n) => (Break(n.(span := c.Mark(n.span))), d)
    case Continue(n) => (Continue(n.(span := c.Mark(n.span))), d)
  }

  /** `Vec<Stmt>` fold: every statement kept, in order. */
  function FoldStmts<S(!new)>(c: Ctx<S>, marking: bool, d: S, ss: seq<Stmt>): (r: (seq<Stmt>, S))
    requires c.Valid()
    decreases SizeStmts(ss), 0
    ensures LeStmts(ss, r.0) && SizeStmts(r.0) == SizeStmts(ss)
  {
    if |ss| == 0 then ([], d)
    else
      var (s', d1) := FoldStmt(c, marking, d, ss[0]);
      var (rest, d2) := FoldStmts(c, marking, d1, ss[1..]);
      assert ([s'] + rest)[1..] == rest;
      ([s'] + rest, d2)
  }

  function FoldOptStmt<S(!new)>(c: Ctx<S>, marking: bool, d: S, a: Option<Stmt>): (r: (Option<Stmt>, S))
    requires c.Valid()
    decreases SizeOptStmt(a), 0
    ensures LeOptStmt(a, r.0) && SizeOptStmt(r.0) == SizeOptStmt(a)
  {
    match a
    case None => (None, d)
    case Some(s) => var (s', d') := FoldStmt(c, marking, d, s); (Some(s'), d')
  }

  /** `Fold<ExprStmt>`: marked exactly when the side-effect oracle says so. */
  function FoldExprStmt<S(!new)>(c: Ctx<S>, marking: bool, d: S, n: ExprStmt): (r: (ExprStmt, S))
    requires c.Valid()
    ensures LeStmt(Expr(n), Expr(r.0))
    ensures c.Marked(n.span) ==> r == (n, d)
    ensures !c.Marked(n.span) ==> (c.Marked(r.0.span) <==> c.shouldInclude(marking, d, n.expr))
    ensures !c.shouldInclude(marking, d, n.expr) ==> r.0.span == n.span
  {
    if c.Marked(n.span) then (n, d)
    else if c.shouldInclude(marking, d, n.expr) then
      var (e, d1) := FoldExt(c, true, d, n.expr);
      (ExprStmt(c.Mark(n.span), e), d1)
    else
      var (e, d1) := FoldExt(c, marking, d, n.expr);
      (ExprStmt(n.span, e), d1)
  }

  /** `Fold<BlockStmt>`: marked exactly when one of its statements is marked
      after folding; no statement is removed. */
  function FoldBlock<S(!new)>(c: Ctx<S>, marking: bool, d: S, n: BlockStmt): (r: (BlockStmt, S))
    requires c.Valid()
    decreases SizeBlock(n), 1
    ensures LeBlock(n, r.0) && SizeBlock(r.0) == SizeBlock(n)
    ensures c.Marked(n.span) ==> r == (n, d)
    ensures !c.Marked(n.span) ==> (c.Marked(r.0.span) <==> BlockRetains(c, r.0))
  {
    if c.Marked(n.span) then (n, d)
    else
      var (stmts, d1) := FoldStmts(c, marking, d, n.stmts);
      var span := if AnyMarked(c, stmts) then c.Mark(n.span) else n.span;
      (BlockStmt(span, stmts), d1)
  }

  function FoldOptBlock<S(!new)>(c: Ctx<S>, marking: bool, d: S, a: Option<BlockStmt>): (r: (Option<BlockStmt>, S))
    requires c.Valid()
    decreases SizeOptBlock(a), 0
    ensures LeOptBlock(a, r.0) && SizeOptBlock(r.0) == SizeOptBlock(a)
  {
    match a
    case None => (None, d)
    case Some(b) => var (b', d') := FoldBlock(c, marking, d, b); (Some(b'), d')
  }

  /** `Fold<IfStmt>`. */
  function FoldIf<S(!new)>(c: Ctx<S>, marking: bool, d: S, n: IfStmt): (r: (IfStmt, S))
    requires c.Valid()
    decreases SizeStmt(If(n)), 1
    ensures LeStmt(If(n), If(r.0)) && SizeStmt(If(r.0)) == SizeStmt(If(n))
    ensures c.Marked(n.span) ==> r == (n, d)
    ensures !c.Marked(n.span) ==> (c.Marked(r.0.span) <==> IfRetains(c, r.0))
  {
    if c.Marked(n.span) then (n, d)
    else
      var (test, d1) := FoldExt(c, marking, d, n.test);
      var (cons, d2) := FoldStmt(c, marking, d1, n.cons);
      var (alt, d3) := FoldOptStmt(c, marking, d2, n.alt);
      if c.Marked(test.span) || c.MarkedStmt(cons) || c.MarkedOptStmt(alt) then
        var (test', d4) := FoldExt(c, true, d3, test);
        var (cons', d5) := FoldStmt(c, true, d4, cons);
        var (alt', d6) := FoldOptStmt(c, true, d5, alt);
        LeStmtTrans(n.cons, cons, cons');
        LeOptStmtTrans(n.alt, alt, alt');
        LeStmtSpan(cons, cons');
        LeOptStmtSpan(alt, alt');
        (IfStmt(c.Mark(n.span), test', cons', alt'), d6)
      else
        (IfStmt(n.span, test, cons, alt), d3)
  }

  /** `Fold<ReturnStmt>`: marked before the argument is visited, so always. */
  function FoldReturn<S(!new)>(c: Ctx<S>, marking: bool, d: S, n: ReturnStmt): (r: (ReturnStmt, S))
    requires c.Valid()
    ensures LeStmt(Return(n), Return(r.0))
    ensures c.Marked(n.span) ==> r == (n, d)
    ensures c.Marked(r.0.span)
  {
    if c.Marked(n.span) then (n, d)
    else
      var span := c.Mark(n.span);
      var (arg, d1) := FoldOptExt(c, marking, d, n.arg);
      if c.MarkedOptExt(arg) then
        var (arg', d2) := FoldOptExt(c, true, d1, arg);
        (ReturnStmt(span, arg'), d2)
      else
        (ReturnStmt(span, arg), d1)
  }

  /** `Fold<ThrowStmt>`: marked before the argument is visited, so always. */
  function FoldThrow<S(!new)>(c: Ctx<S>, marking: bool, d: S, n: ThrowStmt): (r: (ThrowStmt, S))
    requires c.Valid()
    ensures LeStmt(Throw(n), Throw(r.0))
    ensures c.Marked(n.span) ==> r == (n, d)
    ensures c.Marked(r.0.span)
  {
    if c.Marked(n.span) then (n, d)
    else
      var span := c.Mark(n.span);
      var (arg, d1) := FoldExt(c, marking, d, n.arg);
      if c.Marked(arg.span) then
        var (arg', d2) := FoldExt(c, true, d1, arg);
        (ThrowStmt(span, arg'), d2)
      else
        (ThrowStmt(span, arg), d1)
  }

  /** `Fold<LabeledStmt>`: only the body is folded; the label is left alone. */
  function FoldLabeled<S(!new)>(c: Ctx<S>, marking: bool, d: S, n: LabeledStmt): (r: (LabeledStmt, S))
    requires c.Valid()
    decreases SizeStmt(Labeled(n)), 1
    ensures LeStmt(Labeled(n), Labeled(r.0)) && SizeStmt(Labeled(r.0)) == SizeStmt(Labeled(n))
    ensures c.Marked(n.span) ==> r == (n, d)
    ensures !c.Marked(n.span) ==> (c.Marked(r.0.span) <==> LabeledRetains(c, r.0))
  {
    if c.Marked(n.span) then (n, d)
    else
      var (body, d1) := FoldStmt(c, marking, d, n.body);
      if c.MarkedStmt(body) then
        var (body', d2) := FoldStmt(c, true, d1, body);
        LeStmtTrans(n.body, body, body');
        LeStmtSpan(body, body');
        (LabeledStmt(c.Mark(n.span), n.ident, body'), d2)
      else
        (n.(body := body), d1)
  }

  /** `Fold<SwitchStmt>`: no case is ever dropped. When the switch is marked
      only its cases are re-folded in the marking phase, not its
      discriminant. */
  function FoldSwitch<S(!new)>(c: Ctx<S>, marking: bool, d: S, n: SwitchStmt): (r: (SwitchStmt, S))
    requires c.Valid()
    decreases SizeStmt(Switch(n)), 1
    ensures LeStmt(Switch(n), Switch(r.0)) && SizeStmt(Switch(r.0)) == SizeStmt(Switch(n))
    ensures c.Marked(n.span) ==> r == (n, d)
    ensures !c.Marked(n.span) ==> (c.Marked(r.0.span) <==> SwitchRetains(c, r.0))
  {
    if c.Marked(n.span) then (n, d)
    else
      var (disc, d1) := FoldExt(c, marking, d, n.discriminant);
      var (cases, d2) := FoldCases(c, marking, d1, n.cases);
      if c.Marked(disc.span) || AnyCaseMarked(c, cases) then
        var (cases', d3) := FoldCases(c, true, d2, cases);
        LeCasesTrans(n.cases, cases, cases');
        LeCasesMarked(c, cases, cases');
        (SwitchStmt(c.Mark(n.span), disc, cases'), d3)
      else
        (SwitchStmt(n.span, disc, cases), d2)
  }

  /** `Vec<SwitchCase>` fold: every case kept, in order. */
  function FoldCases<S(!new)>(c: Ctx<S>, marking: bool, d: S, ks: seq<SwitchCase>): (r: (seq<SwitchCase>, S))
    requires c.Valid()
    decreases SizeCases(ks), 0
    ensures LeCases(ks, r.0) && SizeCases(r.0) == SizeCases(ks)
  {
    if |ks| == 0 then ([], d)
    else
      var (k', d1) := FoldCase(c, marking, d, ks[0]);
      var (rest, d2) := FoldCases(c, marking, d1, ks[1..]);
      assert ([k'] + rest)[1..] == rest;
      ([k'] + rest, d2)
  }

  /** `Fold<SwitchCase>`. */
  function FoldCase<S(!new)>(c: Ctx<S>, marking: bool, d: S, k: SwitchCase): (r: (SwitchCase, S))
    requires c.Valid()
    decreases SizeCase(k), 1
    ensures LeCase(k, r.0) && SizeCase(r.0) == SizeCase(k)
    ensures c.Marked(k.span) ==> r == (k, d)
    ensures !c.Marked(k.span) ==> (c.Marked(r.0.span) <==> CaseRetains(c, r.0))
  {
    if c.Marked(k.span) then (k, d)
    else
      var (test, d1) := FoldOptExt(c, marking, d, k.test);
      var (cons, d2) := FoldStmts(c, marking, d1, k.cons);
      if c.MarkedOptExt(test) || AnyMarked(c, cons) then
        var (test', d3) := FoldOptExt(c, true, d2, test);
        var (cons', d4) := FoldStmts(c, true, d3, cons);
        LeStmtsTrans(k.cons, cons, cons');
        LeStmtsMarked(c, cons, cons');
        (SwitchCase(c.Mark(k.span), test', cons'), d4)
      else
        (SwitchCase(k.span, test, cons), d2)
  }

  /** `Fold<TryStmt>`. */
  function FoldTry<S(!new)>(c: Ctx<S>, marking: bool, d: S, n: TryStmt): (r: (TryStmt, S))
    requires c.Valid()
    decreases SizeStmt(Try(n)), 1
    ensures LeStmt(Try(n), Try(r.0)) && SizeStmt(Try(r.0)) == SizeStmt(Try(n))
    ensures c.Marked(n.span) ==> r == (n, d)
    ensures !c.Marked(n.span) ==> (c.Marked(r.0.span) <==> TryRetains(c, r.0))
  {
    if c.Marked(n.span) then (n, d)
    else
      var (block, d1) := FoldBlock(c, marking, d, n.block);
      var (handler, d2) := FoldOptCatch(c, marking, d1, n.handler);
      var (finalizer, d3) := FoldOptBlock(c, marking, d2, n.finalizer);
      if c.Marked(block.span) || c.MarkedOptCatch(handler) || c.MarkedOptBlock(finalizer) then
        var (block', d4) := FoldBlock(c, true, d3, block);
        var (handler', d5) := FoldOptCatch(c, true, d4, handler);
        var (finalizer', d6) := FoldOptBlock(c, true, d5, finalizer);
        LeBlockTrans(n.block, block, block');
        LeOptCatchTrans(n.handler, handler, handler');
        LeOptBlockTrans(n.finalizer, finalizer, finalizer');
        (TryStmt(c.Mark(n.span), block', handler', finalizer'), d6)
      else
        (TryStmt(n.span, block, handler, finalizer), d3)
  }

  /** The derived fold of a catch clause: its parameter and body are folded;
      no rule of the statement pass marks the clause itself. */
  function FoldCatch<S(!new)>(c: Ctx<S>, marking: bool, d: S, h: CatchClause): (r: (CatchClause, S))
    requires c.Valid()
    decreases SizeCatch(h), 1
    ensures LeCatch(h, r.0) && SizeCatch(r.0) == SizeCatch(h)
    ensures r.0.span == h.span
  {
    var (param, d1) := FoldOptExt(c, marking, d, h.param);
    var (body, d2) := FoldBlock(c, marking, d1, h.body);
    (CatchClause(h.span, param, body), d2)
  }

  function FoldOptCatch<S(!new)>(c: Ctx<S>, marking: bool, d: S, a: Option<CatchClause>): (r: (Option<CatchClause>, S))
    requires c.Valid()
    decreases SizeOptCatch(a), 0
    ensures LeOptCatch(a, r.0) && SizeOptCatch(r.0) == SizeOptCatch(a)
    ensures a.Some? ==> r.0.Some? && r.0.value.span == a.value.span
  {
    match a
    case None => (None, d)
    case Some(h) => var (h', d') := FoldCatch(c, marking, d, h); (Some(h'), d')
  }

  /** `Fold<WhileStmt>` and `Fold<DoWhileStmt>`. */
  function FoldLoop<S(!new)>(c: Ctx<S>, marking: bool, d: S, n: LoopStmt): (r: (LoopStmt, S))
    requires c.Valid()
    decreases SizeStmt(n.body), 3
    ensures LeStmt(While(n), While(r.0)) && LeStmt(DoWhile(n), DoWhile(r.0)) && SizeStmt(r.0.body) == SizeStmt(n.body)
    ensures c.Marked(n.span) ==> r == (n, d)
    ensures !c.Marked(n.span) ==> (c.Marked(r.0.span) <==> LoopRetains(c, r.0))
  {
    if c.Marked(n.span) then (n, d)
    else
      var (test, d1) := FoldExt(c, marking, d, n.test);
      var (body, d2) := FoldStmt(c, marking, d1, n.body);
      if c.Marked(test.span) || c.MarkedStmt(body) then
        var (test', d3) := FoldExt(c, true, d2, test);
        var (body', d4) := FoldStmt(c, true, d3, body);
        LeStmtTrans(n.body, body, body');
        LeStmtSpan(body, body');
        (LoopStmt(c.Mark(n.span), test', body'), d4)
      else
        (LoopStmt(n.span, test, body), d2)
  }

  /** `Fold<ForStmt>`: the marking-phase re-fold visits `test` first, then
      `init`, `update` and `body`. */
  function FoldFor<S(!new)>(c: Ctx<S>, marking: bool, d: S, n: ForStmt): (r: (ForStmt, S))
    requires c.Valid()
    decreases SizeStmt(For(n)), 1
    ensures LeStmt(For(n), For(r.0)) && SizeStmt(For(r.0)) == SizeStmt(For(n))
    ensures c.Marked(n.span) ==> r == (n, d)
    ensures !c.Marked(n.span) ==> (c.Marked(r.0.span) <==> ForRetains(c, r.0))
  {
    if c.Marked(n.span) then (n, d)
    else
      var (init, d1) := FoldOptExt(c, marking, d, n.init);
      var (test, d2) := FoldOptExt(c, marking, d1, n.test);
      var (update, d3) := FoldOptExt(c, marking, d2, n.update);
      var (body, d4) := FoldStmt(c, marking, d3, n.body);
      if test.None? || c.MarkedOptExt(init) || c.MarkedOptExt(test) ||
         c.MarkedOptExt(update) || c.MarkedStmt(body) then
        var (test', d5) := FoldOptExt(c, true, d4, test);
        var (init', d6) := FoldOptExt(c, true, d5, init);
        var (update', d7) := FoldOptExt(c, true, d6, update);
        var (body', d8) := FoldStmt(c, true, d7, body);
        LeStmtTrans(n.body, body, body');
        LeStmtSpan(body, body');
        (ForStmt(c.Mark(n.span), init', test', update', body'), d8)
      else
        (ForStmt(n.span, init, test, update, body), d4)
  }

  /** `Fold<ForInStmt>` and `Fold<ForOfStmt>`. */
  function FoldForEach<S(!new)>(c: Ctx<S>, marking: bool, d: S, n: ForEachStmt): (r: (ForEachStmt, S))
    requires c.Valid()
    decreases SizeStmt(n.body), 3
    ensures LeStmt(ForIn(n), ForIn(r.0)) && LeStmt(ForOf(n), ForOf(r.0)) && SizeStmt(r.0.body) == SizeStmt(n.body)
    ensures c.Marked(n.span) ==> r == (n, d)
    ensures !c.Marked(n.span) ==> (c.Marked(r.0.span) <==> ForEachRetains(c, r.0))
  {
    if c.Marked(n.span) then (n, d)
    else
      var (left, d1) := FoldExt(c, marking, d, n.left);
      var (right, d2) := FoldExt(c, marking, d1, n.right);
      var (body, d3) := FoldStmt(c, marking, d2, n.body);
      if c.Marked(left.span) || c.Marked(right.span) || c.MarkedStmt(body) then
        var (left', d4) := FoldExt(c, true, d3, left);
        var (right', d5) := FoldExt(c, true, d4, right);
        var (body', d6) := FoldStmt(c, true, d5, body);
        LeStmtTrans(n.body, body, body');
        LeStmtSpan(body, body');
        (ForEachStmt(c.Mark(n.span), left', right', body'), d6)
      else
        (ForEachStmt(n.span, left, right, body), d3)
  }

  // ---------------------------------------------------------------------------
  // Marks survive a re-fold.

  lemma LeOptStmtSpan(a: Option<Stmt>, b: Option<Stmt>)
    requires LeOptStmt(a, b)
    ensures a.Some? ==> b.Some? && LeSpan(SpanOf(a.value), SpanOf(b.value))
  {
    if a.Some? {
      LeStmtSpan(a.value, b.value);
    }
  }

  lemma LeStmtsMarked<S(!new)>(c: Ctx<S>, a: seq<Stmt>, b: seq<Stmt>)
    requires LeStmts(a, b)
    ensures AnyMarked(c, a) ==> AnyMarked(c, b)
  {
    LeStmtsPointwise(a, b);
    if AnyMarked(c, a) {
      var i :| 0 <= i < |a| && c.MarkedStmt(a[i]);
      LeStmtSpan(a[i], b[i]);
    }
  }

  lemma LeCasesMarked<S(!new)>(c: Ctx<S>, a: seq<SwitchCase>, b: seq<SwitchCase>)
    requires LeCases(a, b)
    ensures AnyCaseMarked(c, a) ==> AnyCaseMarked(c, b)
  {
    LeCasesPointwise(a, b);
    if AnyCaseMarked(c, a) {
      var i :| 0 <= i < |a| && c.Marked(a[i].span);
      assert LeCase(a[i], b[i]);
    }
  }
}
