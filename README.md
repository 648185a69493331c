# Statement retention marker of swc's dead-code elimination, in Dafny

This project models the statement-level half of swc's dead-code-elimination
pass (`ecmascript/transforms/src/optimization/simplify/dce/stmt.rs`). Each
`Fold<XxxStmt> for Dce` impl takes a statement node and returns it rebuilt with
its children folded. Along the way it decides whether the node's span gets the
configured retention mark (`used_mark`). A later sweep step deletes every
statement that lacks the mark. This project models only the decision.

Files:

- `ast.dfy` (module `Ast`): spans as an identity plus a set of marks, and one
  datatype per statement node type. `while`/`do-while` share `LoopStmt`,
  `for-in`/`for-of` share `ForEachStmt`, and `break`/`continue` share
  `JumpStmt`, because `stmt.rs` gives each pair the same rule (lines 181-217,
  245-289, 291-294). Field differences between them, such as the `await`
  token of `for await ... of`, are not modelled. The
  module also defines a size measure. A fold may re-fold a child it has already
  folded, so termination needs the measure.
- `order.dfy` (module `Order`): the relation "the second tree is the first with
  marks only added". It requires the same shape, the same span identities, the
  same labels, and at each span a superset of marks. The module proves that the
  relation is transitive and what it implies for statement and case lists.
- `dce.dfy` (module `Dce`): the folds, one function per `Fold` impl. It also
  holds the retention table, one predicate per aggregating kind, and the
  context `Ctx`:
  - `usedMark` is the retention mark.
  - `shouldInclude` is the side-effect oracle.
  - `foldExt` is the fold of anything that is not a statement: an expression,
    a pattern or a variable declaration. Its code lives outside `stmt.rs`.
  
  `Ctx.Valid()` is the oracle contract: `foldExt` never removes a mark and
  keeps the span identity.
- `properties.dfy` (module `DceProperties`): lemmas that relate several folds,
  and worked scenarios (`{ debugger; }`, `{ x; }`,
  `switch (x) { case 1: helper(); break; }`, `if (cond) { f(); } else { }`).

How the folder's `&mut self` state is modelled:

- The marking-phase flag is the `marking` parameter, and a marking-phase
  re-fold (`fold_in_marking_phase`) is a call with `marking = true` that
  starts again at the node's own guard. That this is all the helper does is
  an assumption; see "## Left out".
- The rest of the folder's state is an opaque type parameter `S`. It is
  threaded left to right through every fold, in the order the code visits
  fields.
- An already marked node is returned together with the state it was given.

Absent optional children (`alt`, `handler`, `finalizer`, `init`, `test`,
`update`, a case's `test`, a return's `arg`) count as unmarked.

## Model

| member | source | states |
|---|---|---|
| `Dce.FoldStmt` | ecmascript/transforms/src/optimization/simplify/dce/stmt.rs:291-294 | A folded statement has the same shape as its input and its marks only grow, at every span of the tree (`LeStmt`). An already marked statement and the state come back untouched. |
| `Dce.FoldExprStmt` | ecmascript/transforms/src/optimization/simplify/dce/stmt.rs:5-21 | An unmarked expression statement is marked exactly when `should_include(expr)` holds. When it does not hold, the span is returned as it was and only the expression is folded. A marked statement is returned unchanged. |
| `Dce.FoldBlock` | ecmascript/transforms/src/optimization/simplify/dce/stmt.rs:23-38 | An unmarked block comes out marked exactly when at least one statement of the folded list is marked. It only gains marks and keeps its statements. A marked block is returned unchanged. |
| `Dce.AnyMarked` | ecmascript/transforms/src/optimization/simplify/dce/stmt.rs:32 | `iter().any(is_marked)` over a statement list is true exactly when some element's span carries the mark. |
| `Dce.FoldStmts` | ecmascript/transforms/src/optimization/simplify/dce/stmt.rs:29 | Folding a statement list keeps its length and order, and each element only gains marks. |
| `Dce.FoldIf` | ecmascript/transforms/src/optimization/simplify/dce/stmt.rs:40-61 | An unmarked `if` comes out marked exactly when its folded `test`, `cons` or `alt` is marked. Marks only grow. A marked `if` is returned unchanged. |
| `Dce.FoldReturn` | ecmascript/transforms/src/optimization/simplify/dce/stmt.rs:63-78 | A `return` always comes out marked, whatever its argument is. The argument only gains marks. A marked `return` is returned unchanged. |
| `Dce.FoldThrow` | ecmascript/transforms/src/optimization/simplify/dce/stmt.rs:80-95 | A `throw` always comes out marked, whatever its argument is. A marked `throw` is returned unchanged. |
| `Dce.FoldLabeled` | ecmascript/transforms/src/optimization/simplify/dce/stmt.rs:97-112 | An unmarked labeled statement comes out marked exactly when its folded body is marked. The label is kept. |
| `Dce.FoldSwitch` | ecmascript/transforms/src/optimization/simplify/dce/stmt.rs:114-137 | An unmarked `switch` comes out marked exactly when its discriminant or one of its folded cases is marked. No case is dropped. |
| `Dce.AnyCaseMarked` | ecmascript/transforms/src/optimization/simplify/dce/stmt.rs:129 | `cases.iter().any(is_marked)` is true exactly when some case's span carries the mark. |
| `Dce.FoldCases` | ecmascript/transforms/src/optimization/simplify/dce/stmt.rs:120-132 | Folding the case list keeps its length and order, and each case only gains marks. |
| `Dce.FoldCase` | ecmascript/transforms/src/optimization/simplify/dce/stmt.rs:139-156 | An unmarked case comes out marked exactly when its test or one of its folded consequent statements is marked. A marked case is returned unchanged. |
| `Dce.FoldTry` | ecmascript/transforms/src/optimization/simplify/dce/stmt.rs:158-179 | An unmarked `try` comes out marked exactly when its folded block, handler or finalizer is marked. A marked `try` is returned unchanged. |
| `Dce.FoldCatch` | ecmascript/transforms/src/optimization/simplify/dce/stmt.rs:164 | The catch clause's parameter and body are folded. The clause's own span is left as it was. |
| `Dce.FoldLoop` | ecmascript/transforms/src/optimization/simplify/dce/stmt.rs:181-217 | An unmarked `while` or `do-while` comes out marked exactly when its folded test or body is marked. |
| `Dce.FoldFor` | ecmascript/transforms/src/optimization/simplify/dce/stmt.rs:219-243 | An unmarked `for` comes out marked exactly when it has no test, or its folded `init`, `test`, `update` or `body` is marked. |
| `Dce.FoldForEach` | ecmascript/transforms/src/optimization/simplify/dce/stmt.rs:245-289 | An unmarked `for-in` or `for-of` comes out marked exactly when its folded `left`, `right` or `body` is marked. |
| `Dce.Ctx.Mark` | ecmascript/transforms/src/optimization/simplify/dce/stmt.rs:13 | `apply_mark` adds exactly the retention mark, keeps the identity, and leaves an already marked span unchanged. |
| `Order.LeStmtTrans` | ecmascript/transforms/src/optimization/simplify/dce/stmt.rs:54-56 | Two folds in a row, such as a fold and then its marking-phase re-fold, still only add marks. |
| `Order.LeStmtsPointwise` | ecmascript/transforms/src/optimization/simplify/dce/stmt.rs:29-36 | One list only gains marks over another exactly when the two have the same length and each element only gains marks. |
| `Order.LeCasesPointwise` | ecmascript/transforms/src/optimization/simplify/dce/stmt.rs:122-126 | The same as `LeStmtsPointwise`, for lists of switch cases. |
| `DceProperties.RetentionTable` | ecmascript/transforms/src/optimization/simplify/dce/stmt.rs:11-289 | For every statement kind, an unmarked statement comes out marked exactly when its kind's rule holds on the result. |
| `DceProperties.RefoldMarkedIsIdentity` | ecmascript/transforms/src/optimization/simplify/dce/stmt.rs:7-9 | Once a fold's result is marked, folding it again returns it and the state unchanged, in either phase and from any state. |
| `DceProperties.FoldKeepsMarks` | ecmascript/transforms/src/optimization/simplify/dce/stmt.rs:52 | A folded statement keeps its span identity and every mark it had. |
| `DceProperties.AlwaysRetainedKinds` | ecmascript/transforms/src/optimization/simplify/dce/stmt.rs:63-95 | `return`, `throw`, `debugger`, `with`, `break` and `continue` always come out marked. |
| `DceProperties.PreservedKindsUntouched` | ecmascript/transforms/src/optimization/simplify/dce/stmt.rs:291-294 | `debugger`, `with`, `break` and `continue` come out marked with their children and the folder state untouched. |
| `DceProperties.ForWithoutTestRetained` | ecmascript/transforms/src/optimization/simplify/dce/stmt.rs:227-233 | A `for` without a test always comes out marked. |
| `DceProperties.BlockKeepsStatements` | ecmascript/transforms/src/optimization/simplify/dce/stmt.rs:29-36 | A folded block has as many statements as before, in the same order, and each only gains marks. |
| `DceProperties.SwitchKeepsCases` | ecmascript/transforms/src/optimization/simplify/dce/stmt.rs:120-133 | A folded switch has as many cases as before, and each case keeps the number of its statements. |
| `DceProperties.DebuggerRetainsBlock` | ecmascript/transforms/src/optimization/simplify/dce/stmt.rs:291 | In `{ debugger; }`, both the `debugger` statement and the block come out marked. |
| `DceProperties.BareReferenceUnretained` | ecmascript/transforms/src/optimization/simplify/dce/stmt.rs:19 | In `{ x; }` with an effect-free `x`, neither the statement nor the block is marked. |
| `DceProperties.BreakRetainsCase` | ecmascript/transforms/src/optimization/simplify/dce/stmt.rs:145-152 | In `case 1: helper(); break;`, the `break` marks the case, whatever `helper()` is. |
| `DceProperties.BreakRetainsSwitch` | ecmascript/transforms/src/optimization/simplify/dce/stmt.rs:128-133 | `switch (x) { case 1: helper(); break; }` comes out marked, and so does its case. |
| `DceProperties.CallRetainsBlock` | ecmascript/transforms/src/optimization/simplify/dce/stmt.rs:11-16 | `{ f(); }` is marked when the oracle reports the call as effectful. |
| `DceProperties.EmptyBlockUnchanged` | ecmascript/transforms/src/optimization/simplify/dce/stmt.rs:29-36 | An empty unmarked block comes back exactly as it was, with the state unchanged. |
| `DceProperties.CallRetainsIf` | ecmascript/transforms/src/optimization/simplify/dce/stmt.rs:46-57 | In `if (cond) { f(); } else { }`, the `if` and its consequent are marked. The empty alternate is re-folded and stays unmarked. |

## Left out

- The body of `should_include` and every fold of expressions, patterns and
  declarations, including what the marking phase does inside them. That code
  is not part of this model. They are the oracles in `Ctx`, and `Ctx.Valid()`
  assumes of `foldExt` only that it never removes a mark.
- The sweep step that deletes unmarked statements. It is not in `stmt.rs`.
- The `preserve!` macro text is not part of this model. `debugger`, `with`,
  `break` and `continue` are modelled as "mark the span, visit nothing",
  following lines 291-294.
- swc_common `Span` and `SyntaxContext` internals (hygiene mark chains,
  `DUMMY_SP`, the `Spanned` impl for `Option`). A span is an identity plus a
  set of marks, and an absent optional child counts as unmarked.
- Statement kinds with no rule in `stmt.rs` (declarations, the empty
  statement). `Stmt` has no constructor for them, so a modelled block cannot
  contain a declaration.
- `CatchClause` has no `Fold` impl in `stmt.rs`, and any impl elsewhere in the
  module is not part of this model. The model uses the derived fold, which
  never marks the clause's own span. So in the model, a `try` is not retained
  through its handler unless the clause's span was already marked.
- `fold_in_marking_phase` is not in `stmt.rs`. The model assumes it sets the
  marking-phase flag for exactly one child fold, restores the old flag
  afterwards, and otherwise folds the child like any other fold, starting at
  the child's own already-marked guard. Every marking-phase re-fold in the
  model, and so the scenario `CallRetainsIf`, rests on this assumption.
- `Dce.FoldStmts`: the fold of `Vec<Stmt>` and `Vec<SwitchCase>` (lines 29,
  120, 145) is not in `stmt.rs`. The model takes it to be the element-wise
  fold in list order. "Keeps its length and order" in `Dce.FoldStmts`,
  `Dce.FoldCases`, `BlockKeepsStatements` and `SwitchKeepsCases` holds under
  this assumption only.
- The order of derived `fold_children` for node types that are not shown is
  taken to be the field order of the datatypes in `ast.dfy`. The order only
  affects how the opaque state is threaded.
- Full idempotence of an unmarked result is not proved. Re-folding such a
  result calls the oracles again, and what they do is not part of this model.
  Only the marked case is proved (`RefoldMarkedIsIdentity`), which is what the
  guards at the top of each impl give.
- Reachability and constant-condition pruning. This file does not do them.

Notes on the marking-phase re-folds, as the code does them:

- A retained `switch` re-folds only its `cases`, not its discriminant
  (line 132).
- A retained `for` re-folds `test` before `init` (lines 235-238).
- A retained block never re-folds its statements (lines 29-36).
- `return` and `throw` re-fold their argument only when the argument is
  already marked after the first fold (lines 72-74, 89-91).
