/** Properties of the statement marker that relate several folds or hold for
    every statement kind, and worked scenarios. */
module DceProperties {
  import opened Ast
  import opened Order
  import opened Dce

  /** The retention table, stated for the result `r` of folding an unmarked
      statement `s`: which kinds are marked unconditionally, which follow the
      side-effect oracle, and which follow their designated children. */
  ghost predicate RetentionRule<S(!new)>(c: Ctx<S>, marking: bool, d: S, s: Stmt, r: Stmt) {
    match s
    case Expr(n) => c.shouldInclude(marking, d, n.expr)
    case Block(_) => r.Block? && BlockRetains(c, r.blockStmt)
    case If(_) => r.If? && IfRetains(c, r.ifStmt)
    case Return(_) => true
    case Throw(_) => true
    case Labeled(_) => r.Labeled? && LabeledRetains(c, r.labeledStmt)
    case Switch(_) => r.Switch? && SwitchRetains(c, r.switchStmt)
    case Try(_) => r.Try? && TryRetains(c, r.tryStmt)
    case While(_) => r.While? && LoopRetains(c, r.whileStmt)
    case DoWhile(_) => r.DoWhile? && LoopRetains(c, r.doWhileStmt)
    case For(_) => r.For? && ForRetains(c, r.forStmt)
    case ForIn(_) => r.ForIn? && ForEachRetains(c, r.forInStmt)
    case ForOf(_) => r.ForOf? && ForEachRetains(c, r.forOfStmt)
    case Debugger(_) => true
    case With(_) => true
    case Break(_) => true
    case Continue(_) => true
  }

  /** An unmarked statement comes out marked exactly when its kind's rule says so. */
  lemma RetentionTable<S(!new)>(c: Ctx<S>, marking: bool, d: S, s: Stmt)
    requires c.Valid() && !c.MarkedStmt(s)
    ensures var r := FoldStmt(c, marking, d, s).0;
            c.MarkedStmt(r) <==> RetentionRule(c, marking, d, s, r)
  {
  }

  /** The idempotence guard: once a fold's result is marked, folding it again,
      in either phase and from any state, returns it and the state unchanged. */
  lemma RefoldMarkedIsIdentity<S(!new)>(c: Ctx<S>, marking: bool, d: S, s: Stmt, marking': bool, d': S)
    requires c.Valid()
    requires c.MarkedStmt(FoldStmt(c, marking, d, s).0)
    ensures var r := FoldStmt(c, marking, d, s).0;
            FoldStmt(c, marking', d', r) == (r, d')
  {
  }

  /** Monotonicity at the root: a statement keeps its identity and every mark it had. */
  lemma FoldKeepsMarks<S(!new)>(c: Ctx<S>, marking: bool, d: S, s: Stmt)
    requires c.Valid()
    ensures var r := FoldStmt(c, marking, d, s).0;
            SpanOf(r).id == SpanOf(s).id && SpanOf(s).marks <= SpanOf(r).marks
  {
  }

  /** `return`, `throw`, `debugger`, `with`, `break` and `continue` always come out marked. */
  lemma AlwaysRetainedKinds<S(!new)>(c: Ctx<S>, marking: bool, d: S, s: Stmt)
    requires c.Valid()
    requires s.Return? || s.Throw? || s.Debugger? || s.With? || s.Break? || s.Continue?
    ensures c.MarkedStmt(FoldStmt(c, marking, d, s).0)
  {
  }

  /** `debugger`, `with`, `break` and `continue` come out marked without their
      children being visited: the `with` object and body and the jump label are
      returned as they were, and the state is not touched. */
  lemma PreservedKindsUntouched<S(!new)>(c: Ctx<S>, marking: bool, d: S, s: Stmt)
    requires c.Valid()
    requires s.Debugger? || s.With? || s.Break? || s.Continue?
    ensures var r := FoldStmt(c, marking, d, s);
      && c.MarkedStmt(r.0) && r.1 == d
      && (s.With? ==> r.0.With? && r.0.withStmt.obj == s.withStmt.obj && r.0.withStmt.body == s.withStmt.body)
      && (s.Break? ==> r.0.Break? && r.0.breakStmt.ident == s.breakStmt.ident)
      && (s.Continue? ==> r.0.Continue? && r.0.continueStmt.ident == s.continueStmt.ident)
  {
  }

  /** A `for` without a test is always retained, whatever its other parts are. */
  lemma ForWithoutTestRetained<S(!new)>(c: Ctx<S>, marking: bool, d: S, n: ForStmt)
    requires c.Valid() && n.test.None?
    ensures c.Marked(FoldFor(c, marking, d, n).0.span)
  {
  }

  /** A block never removes or reorders statements: the folded list has the
      same length and each statement only gains marks. */
  lemma BlockKeepsStatements<S(!new)>(c: Ctx<S>, marking: bool, d: S, n: BlockStmt)
    requires c.Valid()
    ensures var r := FoldBlock(c, marking, d, n).0;
            |r.stmts| == |n.stmts| && forall i :: 0 <= i < |n.stmts| ==> LeStmt(n.stmts[i], r.stmts[i])
  {
    var r := FoldBlock(c, marking, d, n).0;
    LeStmtsPointwise(n.stmts, r.stmts);
  }

  /** A switch never removes or reorders cases, and neither does a case its statements. */
  lemma SwitchKeepsCases<S(!new)>(c: Ctx<S>, marking: bool, d: S, n: SwitchStmt)
    requires c.Valid()
    ensures var r := FoldSwitch(c, marking, d, n).0;
            |r.cases| == |n.cases| &&
            forall i :: 0 <= i < |n.cases| ==>
              LeCase(n.cases[i], r.cases[i]) && |r.cases[i].cons| == |n.cases[i].cons|
  {
    var r := FoldSwitch(c, marking, d, n).0;
    if r != n {
      assert LeStmt(Switch(n), Switch(r)) && Switch(n) != Switch(r);
      assert LeSwitch(n, r);
      LeCasesPointwise(n.cases, r.cases);
      forall i | 0 <= i < |n.cases|
        ensures |r.cases[i].cons| == |n.cases[i].cons|
      {
        if n.cases[i] != r.cases[i] {
          assert LeCase(n.cases[i], r.cases[i]);
          LeStmtsPointwise(n.cases[i].cons, r.cases[i].cons);
        }
      }
    }
  }

  // ---------------------------------------------------------------------------
  // Scenarios.

  /** `{ debugger; }`: the statement and its enclosing block are both retained. */
  lemma DebuggerRetainsBlock<S(!new)>(c: Ctx<S>, marking: bool, d: S, blockSpan: Span, stmtSpan: Span)
    requires c.Valid() && !c.Marked(blockSpan)
    ensures var r := FoldBlock(c, marking, d, BlockStmt(blockSpan, [Debugger(DebuggerStmt(stmtSpan))])).0;
            c.Marked(r.span) && |r.stmts| == 1 && c.MarkedStmt(r.stmts[0])
  {
    var n := BlockStmt(blockSpan, [Debugger(DebuggerStmt(stmtSpan))]);
    var stmts := FoldStmts(c, marking, d, n.stmts).0;
    assert stmts[0] == FoldStmt(c, marking, d, n.stmts[0]).0;
    assert c.MarkedStmt(stmts[0]);
  }

  /** `{ x; }` with an effect-free `x`: neither the statement nor the block is retained. */
  lemma BareReferenceUnretained<S(!new)>(c: Ctx<S>, marking: bool, d: S, blockSpan: Span, stmtSpan: Span, x: Ext)
    requires c.Valid() && !c.Marked(blockSpan) && !c.Marked(stmtSpan)
    requires !c.shouldInclude(marking, d, x)
    ensures var r := FoldBlock(c, marking, d, BlockStmt(blockSpan, [Expr(ExprStmt(stmtSpan, x))])).0;
            !c.Marked(r.span) && |r.stmts| == 1 && !c.MarkedStmt(r.stmts[0])
  {
    var n := BlockStmt(blockSpan, [Expr(ExprStmt(stmtSpan, x))]);
    var stmts := FoldStmts(c, marking, d, n.stmts).0;
    assert stmts[0] == FoldStmt(c, marking, d, n.stmts[0]).0;
    assert stmts == [stmts[0]];
  }

  /** `case 1: helper(); break;`: the `break` retains the case, whatever `helper()` is. */
  lemma BreakRetainsCase<S(!new)>(c: Ctx<S>, marking: bool, d: S, caseSpan: Span, one: Ext,
                                  call: ExprStmt, breakSpan: Span)
    requires c.Valid() && !c.Marked(caseSpan)
    ensures var r := FoldCase(c, marking, d,
                       SwitchCase(caseSpan, Some(one), [Expr(call), Break(JumpStmt(breakSpan, None))])).0;
            c.Marked(r.span) && |r.cons| == 2
  {
    var k := SwitchCase(caseSpan, Some(one), [Expr(call), Break(JumpStmt(breakSpan, None))]);
    var d1 := FoldOptExt(c, marking, d, k.test).1;
    var brk := Break(JumpStmt(breakSpan, None));
    var (s0, d2) := FoldStmt(c, marking, d1, k.cons[0]);
    assert k.cons[1..] == [brk];
    var (s1, d3) := FoldStmt(c, marking, d2, brk);
    assert c.MarkedStmt(s1);
    var rest := FoldStmts(c, marking, d2, [brk]).0;
    assert rest == [s1] + FoldStmts(c, marking, d3, []).0;
    var cons := FoldStmts(c, marking, d1, k.cons).0;
    assert cons == [s0] + rest;
    assert AnyMarked(c, cons);
  }

  /** `switch (x) { case 1: helper(); break; }`: the retained case retains the switch. */
  lemma BreakRetainsSwitch<S(!new)>(c: Ctx<S>, marking: bool, d: S, switchSpan: Span, x: Ext,
                                    caseSpan: Span, one: Ext, call: ExprStmt, breakSpan: Span)
    requires c.Valid() && !c.Marked(switchSpan) && !c.Marked(caseSpan)
    ensures var r := FoldSwitch(c, marking, d, SwitchStmt(switchSpan, x,
                       [SwitchCase(caseSpan, Some(one), [Expr(call), Break(JumpStmt(breakSpan, None))])])).0;
            c.Marked(r.span) && |r.cases| == 1 && c.Marked(r.cases[0].span)
  {
    var k := SwitchCase(caseSpan, Some(one), [Expr(call), Break(JumpStmt(breakSpan, None))]);
    var n := SwitchStmt(switchSpan, x, [k]);
    var d1 := FoldExt(c, marking, d, x).1;
    var cases := FoldCases(c, marking, d1, n.cases).0;
    assert cases[0] == FoldCase(c, marking, d1, k).0;
    BreakRetainsCase(c, marking, d1, caseSpan, one, call, breakSpan);
    assert c.Marked(cases[0].span);
    SwitchKeepsCases(c, marking, d, n);
  }

  /** `{ f(); }` where the oracle reports the call as effectful in every state:
      the statement and the block are retained. */
  lemma CallRetainsBlock<S(!new)>(c: Ctx<S>, marking: bool, d: S, blockSpan: Span, stmtSpan: Span, call: Ext)
    requires c.Valid() && !c.Marked(blockSpan) && !c.Marked(stmtSpan)
    requires forall m, e :: c.shouldInclude(m, e, call)
    ensures c.Marked(FoldBlock(c, marking, d, BlockStmt(blockSpan, [Expr(ExprStmt(stmtSpan, call))])).0.span)
  {
    var n := BlockStmt(blockSpan, [Expr(ExprStmt(stmtSpan, call))]);
    var stmts := FoldStmts(c, marking, d, n.stmts).0;
    assert stmts[0] == FoldStmt(c, marking, d, n.stmts[0]).0;
    assert c.shouldInclude(marking, d, call);
    assert c.MarkedStmt(stmts[0]);
  }

  /** `{ }`: an empty block is left as it is. */
  lemma EmptyBlockUnchanged<S(!new)>(c: Ctx<S>, marking: bool, d: S, blockSpan: Span)
    requires c.Valid() && !c.Marked(blockSpan)
    ensures FoldBlock(c, marking, d, BlockStmt(blockSpan, [])) == (BlockStmt(blockSpan, []), d)
  {
  }

  /** `if (cond) { f(); } else { }`: the call retains the consequent block,
      which retains the `if`; the empty alternate block is re-folded but stays
      unretained. */
  lemma CallRetainsIf<S(!new)>(c: Ctx<S>, marking: bool, d: S, ifSpan: Span, cond: Ext,
                               consSpan: Span, callSpan: Span, call: Ext, altSpan: Span)
    requires c.Valid() && !c.Marked(ifSpan) && !c.Marked(consSpan) && !c.Marked(callSpan) && !c.Marked(altSpan)
    requires forall m, e :: c.shouldInclude(m, e, call)
    ensures var r := FoldIf(c, marking, d, IfStmt(ifSpan, cond,
                       Block(BlockStmt(consSpan, [Expr(ExprStmt(callSpan, call))])),
                       Some(Block(BlockStmt(altSpan, []))))).0;
            c.Marked(r.span) && c.MarkedStmt(r.cons) && r.alt.Some? && !c.MarkedStmt(r.alt.value)
  {
    var empty := BlockStmt(altSpan, []);
    var n := IfStmt(ifSpan, cond, Block(BlockStmt(consSpan, [Expr(ExprStmt(callSpan, call))])), Some(Block(empty)));
    var (test, d1) := FoldExt(c, marking, d, n.test);
    var (cons, d2) := FoldStmt(c, marking, d1, n.cons);
    CallRetainsBlock(c, marking, d1, consSpan, callSpan, call);
    assert c.MarkedStmt(cons);
    var (alt, d3) := FoldOptStmt(c, marking, d2, n.alt);
    EmptyBlockUnchanged(c, marking, d2, altSpan);
    assert FoldStmt(c, marking, d2, Block(empty)).0 == Block(empty);
    assert alt == Some(Block(empty));
    var (test', d4) := FoldExt(c, true, d3, test);
    var (cons', d5) := FoldStmt(c, true, d4, cons);
    EmptyBlockUnchanged(c, true, d5, altSpan);
    assert FoldStmt(c, true, d5, Block(empty)).0 == Block(empty);
    assert FoldOptStmt(c, true, d5, alt).0 == Some(Block(empty));
  }
}
