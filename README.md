# Syntax analyser for the coursework language

This project models the recursive-descent syntax analyser of a small
imperative teaching language and proves properties of it. The language has
`begin … end` programs, assignments, `if`, `while`, `for`, `do … until` and
`call` statements, conditions and arithmetic expressions.

The analyser holds one lookahead token. It moves past that token only
through `acceptTerminal`. Each nonterminal of the grammar has its own
procedure, and those procedures send a tree sink three kinds of event:
commence a nonterminal, insert a terminal, finish a nonterminal. The first
mismatch reports an error, which aborts the whole parse.

The model has two layers:

- **`Productions`**: one pure function per procedure of the analyser. It
  takes the analyser's state before the call, a `Cursor` holding the index
  of the lookahead token and the events sent to the sink so far. It returns
  how the call ends: `Ok` with the new state, or `Fail` with the state at
  the offending token and the error raised. Dafny's `:-` passes a failure up
  unchanged, as the thrown exception unwinds every caller.
- **`Analyser.SyntaxAnalyser`**: the analyser as the source writes it. It is
  a class whose fields are the lookahead index and the sink's trace, with
  one method per procedure. The control part of a `for` statement and the
  assignments inside it, written inline in `_forStatement_`, are two
  further methods, `ForControl` and `ForAssignment`. The loops are kept as
  `while` loops. Each method is proved to end exactly as the production
  function of the same name says: same final state, same error.

The lemma modules state what the analyser guarantees:

- `SinkLemmas`: the sink receives exactly the consumed tokens, and every
  error is justified by the token it is reported at.
- `ListLemmas`: how statement lists end.
- `StatementLemmas`: statement dispatch and the shapes of the statement
  productions.
- `ArgumentLemmas`: conditions and argument lists.
- `ExpressionTrees`: additive and multiplicative chains nest to the right.
- `LookaheadLemmas`: how far ahead the analyser looks.
- `Nesting`: the Commence and Finish events a production sends are well
  nested, each Finish closing the innermost open nonterminal of its name.

Some behaviour of the code is worth stating outright. The model follows the
code in each case, and these lemmas pin the behaviour down:

- The right operand of a condition must be a number
  (SyntaxAnalyser.java:266). An identifier there is rejected
  (`ArgumentLemmas.ConditionRejectsIdentifier`).
- A `do … until` statement can never be accepted. The statement list inside
  it returns normally only at `end`, `else` or end-of-input, so the `until`
  the production then expects is never there
  (`StatementLemmas.UntilStatementFails`).
- An empty argument list `( )` commences the `ArgumentList` nonterminal but
  never finishes it (`ArgumentLemmas.ArgumentListEmpty`). After such a call
  statement the events no longer nest
  (`Nesting.ProcedureStatementEmptyList`).
- The comment at SyntaxAnalyser.java:23 says `_statementPart_` looks for
  end-of-input after the closing `end`, but the code at lines 25-34 never
  checks for it. Whatever follows that `end` is ignored, so
  `begin end x` is accepted (`LookaheadLemmas.TrailingTokenAccepted`,
  `LookaheadLemmas.ParseIgnoresRest`).
- The statement-list loop re-tests its condition after each pass, but the
  test can never succeed a second time (`ListLemmas.StatementListOnce`). The
  expression and term loops likewise run at most once, because the
  recursive call consumes the whole rest of the chain
  (`ExpressionTrees.ExpressionTailOnce`, `ExpressionTrees.TermTailOnce`).

## Model

| member | source | states |
|---|---|---|
| Productions.Accept | SyntaxAnalyser.java:14-21 | succeeds exactly when the lookahead has the expected kind; then it consumes exactly that token and sends it as one Terminal event; otherwise it fails at the lookahead with `Expected(k)`, consuming and sending nothing |
| Productions.StatementPart | SyntaxAnalyser.java:25-34 | the lookahead only moves forward and stays on a token |
| Productions.StatementList | SyntaxAnalyser.java:37-52 | the lookahead only moves forward and stays on a token |
| Productions.Separator | SyntaxAnalyser.java:43-48 | the lookahead only moves forward and stays on a token |
| Productions.Statement | SyntaxAnalyser.java:57-87 | the lookahead only moves forward; an accepted statement consumes at least one token |
| Productions.AssignmentStatement | SyntaxAnalyser.java:90-105 | the lookahead only moves forward; an accepted assignment consumes at least one token |
| Productions.IfStatement | SyntaxAnalyser.java:108-133 | the lookahead only moves forward; an accepted if statement consumes at least one token |
| Productions.ElsePart | SyntaxAnalyser.java:123-126 | the lookahead only moves forward and stays on a token |
| Productions.WhileStatement | SyntaxAnalyser.java:136-152 | the lookahead only moves forward; an accepted while statement consumes at least one token |
| Productions.ProcedureStatement | SyntaxAnalyser.java:155-165 | the lookahead only moves forward; an accepted call consumes at least one token |
| Productions.UntilStatement | SyntaxAnalyser.java:168-181 | the lookahead only moves forward and stays on a token |
| Productions.ForStatement | SyntaxAnalyser.java:184-218 | the lookahead only moves forward; an accepted for statement consumes at least one token |
| Productions.ForControl | SyntaxAnalyser.java:189-207 | the lookahead only moves forward; an accepted control part consumes at least one token |
| Productions.ForAssignment | SyntaxAnalyser.java:192-194 | the lookahead only moves forward; an accepted assignment consumes at least one token |
| Productions.ArgumentList | SyntaxAnalyser.java:221-253 | the lookahead only moves forward; an accepted list consumes at least one token |
| Productions.ArgumentTail | SyntaxAnalyser.java:234-243 | the lookahead only moves forward, and the loop stops only at a lookahead that is not ',' |
| Productions.Condition | SyntaxAnalyser.java:256-269 | the lookahead only moves forward; an accepted condition consumes at least one token |
| Productions.ConditionalOperator | SyntaxAnalyser.java:272-290 | the lookahead only moves forward and stays on a token |
| Productions.Expression | SyntaxAnalyser.java:293-303 | an accepted expression consumes at least one token and stops at a lookahead that is not '+' or '-' |
| Productions.ExpressionTail | SyntaxAnalyser.java:297-300 | the loop stops only at a lookahead that is not '+' or '-' |
| Productions.Term | SyntaxAnalyser.java:306-323 | an accepted term consumes at least one token and stops at a lookahead that is not '*', '/' or 'mod' |
| Productions.TermTail | SyntaxAnalyser.java:313-320 | the loop stops only at a lookahead that is not '*', '/' or 'mod' |
| Productions.Factor | SyntaxAnalyser.java:326-353 | the lookahead only moves forward; an accepted factor consumes at least one token |
| Productions.Parse | SyntaxAnalyser.java:25-34 | parsing from the first token with an empty sink ends with the lookahead still on a token |
| Analyser.SyntaxAnalyser.CommenceNonterminal | SyntaxAnalyser.java:26 | appends one Commence event and leaves the lookahead where it is |
| Analyser.SyntaxAnalyser.FinishNonterminal | SyntaxAnalyser.java:33 | appends one Finish event and leaves the lookahead where it is |
| Analyser.SyntaxAnalyser.AcceptTerminal | SyntaxAnalyser.java:14-21 | the object ends in the state `Productions.Accept` gives, with the same error |
| Analyser.SyntaxAnalyser.StatementPart | SyntaxAnalyser.java:25-34 | the object ends in the state `Productions.StatementPart` gives from its state before the call, with the same error |
| Analyser.SyntaxAnalyser.StatementList | SyntaxAnalyser.java:37-52 | the while loop ends in the state `Productions.StatementList` gives, with the same error; its invariant is that the rest of the loop has the outcome of the whole |
| Analyser.SyntaxAnalyser.Statement | SyntaxAnalyser.java:57-87 | the switch ends in the state `Productions.Statement` gives, with the same error |
| Analyser.SyntaxAnalyser.AssignmentStatement | SyntaxAnalyser.java:90-105 | ends in the state `Productions.AssignmentStatement` gives, with the same error |
| Analyser.SyntaxAnalyser.IfStatement | SyntaxAnalyser.java:108-133 | ends in the state `Productions.IfStatement` gives, with the same error, including the optional else-branch |
| Analyser.SyntaxAnalyser.WhileStatement | SyntaxAnalyser.java:136-152 | ends in the state `Productions.WhileStatement` gives, with the same error |
| Analyser.SyntaxAnalyser.ProcedureStatement | SyntaxAnalyser.java:155-165 | ends in the state `Productions.ProcedureStatement` gives, with the same error |
| Analyser.SyntaxAnalyser.UntilStatement | SyntaxAnalyser.java:168-181 | ends in the state `Productions.UntilStatement` gives, with the same error |
| Analyser.SyntaxAnalyser.ForStatement | SyntaxAnalyser.java:184-218 | ends in the state `Productions.ForStatement` gives, with the same error |
| Analyser.SyntaxAnalyser.ForControl | SyntaxAnalyser.java:189-207 | ends in the state `Productions.ForControl` gives, with the same error |
| Analyser.SyntaxAnalyser.ForAssignment | SyntaxAnalyser.java:192-194 | ends in the state `Productions.ForAssignment` gives, with the same error |
| Analyser.SyntaxAnalyser.ArgumentList | SyntaxAnalyser.java:221-253 | the comma loop ends in the state `Productions.ArgumentList` gives, with the same error |
| Analyser.SyntaxAnalyser.Condition | SyntaxAnalyser.java:256-269 | ends in the state `Productions.Condition` gives, with the same error |
| Analyser.SyntaxAnalyser.ConditionalOperator | SyntaxAnalyser.java:272-290 | ends in the state `Productions.ConditionalOperator` gives, with the same error |
| Analyser.SyntaxAnalyser.Expression | SyntaxAnalyser.java:293-303 | the additive loop ends in the state `Productions.Expression` gives, with the same error |
| Analyser.SyntaxAnalyser.Term | SyntaxAnalyser.java:306-323 | the multiplicative loop ends in the state `Productions.Term` gives, with the same error |
| Analyser.SyntaxAnalyser.Factor | SyntaxAnalyser.java:326-353 | ends in the state `Productions.Factor` gives, with the same error |
| Analyser.Run | SyntaxAnalyser.java:25-34 | running the analyser object on a token sequence yields the trace and the error of `Productions.Parse` |
| SinkLemmas.AcceptAdvances | SyntaxAnalyser.java:14-21 | from a state whose sink holds exactly the consumed tokens, acceptTerminal keeps that so, only appends, and fails only at a token of another kind |
| SinkLemmas.EmitAdvances | SyntaxAnalyser.java:26 | commencing or finishing a nonterminal keeps the sink holding exactly the consumed tokens |
| SinkLemmas.StatementPartAdvances | SyntaxAnalyser.java:25-34 | the sink still holds exactly the consumed tokens, in order and none of them end-of-input; it only grows; an error is justified by the token it is reported at |
| SinkLemmas.StatementListAdvances | SyntaxAnalyser.java:37-52 | the same invariant across a statement list, with a missing separator reported only at a token other than ';', 'end' or 'else' |
| SinkLemmas.SeparatorAdvances | SyntaxAnalyser.java:43-48 | the same invariant across the separator check |
| SinkLemmas.StatementAdvances | SyntaxAnalyser.java:57-87 | the same invariant across a statement; 'ELSE without IF' only at 'else', 'Unknown statement' only at a token that starts no statement |
| SinkLemmas.AssignmentStatementAdvances | SyntaxAnalyser.java:90-105 | the same invariant across an assignment |
| SinkLemmas.IfStatementAdvances | SyntaxAnalyser.java:108-133 | the same invariant across an if statement |
| SinkLemmas.ElsePartAdvances | SyntaxAnalyser.java:123-126 | the same invariant across the optional else-branch |
| SinkLemmas.WhileStatementAdvances | SyntaxAnalyser.java:136-152 | the same invariant across a while statement |
| SinkLemmas.ProcedureStatementAdvances | SyntaxAnalyser.java:155-165 | the same invariant across a call |
| SinkLemmas.UntilStatementAdvances | SyntaxAnalyser.java:168-181 | the same invariant across a do-until statement |
| SinkLemmas.ForStatementAdvances | SyntaxAnalyser.java:184-218 | the same invariant across a for statement |
| SinkLemmas.ForControlAdvances | SyntaxAnalyser.java:189-207 | the same invariant across the control part of a for statement |
| SinkLemmas.ForAssignmentAdvances | SyntaxAnalyser.java:192-194 | the same invariant across an assignment inside the for control part |
| SinkLemmas.ArgumentListAdvances | SyntaxAnalyser.java:221-253 | the same invariant across an argument list; a missing argument only at a token that is neither an identifier nor ')' |
| SinkLemmas.ArgumentTailAdvances | SyntaxAnalyser.java:234-243 | the same invariant across the comma loop; the missing identifier after a comma only at a non-identifier |
| SinkLemmas.ConditionAdvances | SyntaxAnalyser.java:256-269 | the same invariant across a condition |
| SinkLemmas.ConditionalOperatorAdvances | SyntaxAnalyser.java:272-290 | the same invariant; a missing comparison only at a non-relational token |
| SinkLemmas.ExpressionAdvances | SyntaxAnalyser.java:293-303 | the same invariant across an expression |
| SinkLemmas.ExpressionTailAdvances | SyntaxAnalyser.java:297-300 | the same invariant across the additive loop |
| SinkLemmas.TermAdvances | SyntaxAnalyser.java:306-323 | the same invariant across a term |
| SinkLemmas.TermTailAdvances | SyntaxAnalyser.java:313-320 | the same invariant across the multiplicative loop |
| SinkLemmas.FactorAdvances | SyntaxAnalyser.java:326-353 | the same invariant across a factor; a missing factor only at a token that is not an identifier, a number or '(' |
| SinkLemmas.ParseAdvances | SyntaxAnalyser.java:25-34 | from the first token with an empty sink, the Terminal events are exactly the consumed tokens in order, none is end-of-input, and a rejection is justified by its token |
| ListLemmas.StatementListStops | SyntaxAnalyser.java:37-52 | a statement list that returns normally leaves 'end', 'else' or end-of-input as the lookahead |
| ListLemmas.SeparatorStops | SyntaxAnalyser.java:43-48 | a separator check that lets the list go on leaves 'end', 'else' or end-of-input as the lookahead |
| ListLemmas.StatementListEmpty | SyntaxAnalyser.java:38 | the list returns at once, consuming and sending nothing, if and only if the lookahead is 'end', 'else' or end-of-input |
| ListLemmas.StatementListOnce | SyntaxAnalyser.java:38-51 | the loop body runs at most once: commence, one statement, the separator check, finish, and the re-test fails |
| ListLemmas.StatementListAfterStatement | SyntaxAnalyser.java:43-48 | after a statement: ';' is consumed and the list recurses; 'end' or 'else' ends the list normally; any other lookahead, end-of-input included, fails with a missing separator at that token |
| StatementLemmas.StatementPartBrackets | SyntaxAnalyser.java:25-34 | an accepted program starts with 'begin', its last consumed token is 'end', and the sink ends with that 'end' and the StatementPart finish |
| StatementLemmas.StatementDispatch | SyntaxAnalyser.java:57-87 | a statement fails at its first token if and only if that token starts no statement; 'else' there fails with ElseWithoutIf, anything else with UnknownStatement |
| StatementLemmas.ProcedureStatementOpens | SyntaxAnalyser.java:155-165 | a call fails at its first token if and only if that token is not 'call' |
| StatementLemmas.AssignmentStatementOpens | SyntaxAnalyser.java:90-105 | an assignment fails at its first token if and only if that token is not an identifier |
| StatementLemmas.IfStatementOpens | SyntaxAnalyser.java:108-133 | an if statement fails at its first token if and only if that token is not 'if' |
| StatementLemmas.IfStatementCloses | SyntaxAnalyser.java:128-132 | an accepted if statement ends with 'end' 'if' followed by its finish event |
| StatementLemmas.WhileStatementShape | SyntaxAnalyser.java:136-152 | a while statement fails at its first token if and only if that is not 'while'; an accepted one ends with 'end' 'loop' and its finish event |
| StatementLemmas.ForStatementShape | SyntaxAnalyser.java:184-218 | a for statement fails at its first token if and only if that is not 'for'; an accepted one ends with 'end' 'loop' and its finish event |
| StatementLemmas.ElsePartThenEnd | SyntaxAnalyser.java:123-130 | the else-branch is taken exactly when the lookahead is 'else'; after it the lookahead is 'end', 'else' or end-of-input |
| StatementLemmas.UntilStatementFails | SyntaxAnalyser.java:168-181 | a do-until statement never ends normally; it fails at its first token if and only if that is not 'do' |
| ArgumentLemmas.ConditionShape | SyntaxAnalyser.java:256-290 | a condition is accepted if and only if it is an identifier, a relational operator and a number; it then consumes exactly those three tokens and sends the given events |
| ArgumentLemmas.ConditionRejectsIdentifier | SyntaxAnalyser.java:260-266 | an identifier after the relational operator fails with Expected(NumberConstant) at that identifier |
| ArgumentLemmas.ArgumentListEmpty | SyntaxAnalyser.java:221-227 | `( )` is accepted; ArgumentList is commenced after '(' and never finished, so the sink ends one nonterminal deeper |
| ArgumentLemmas.ArgumentListMissing | SyntaxAnalyser.java:244-246 | a first argument that is neither ')' nor an identifier fails with MissingArgument at that token, after ArgumentList is commenced |
| ArgumentLemmas.ArgumentListCloses | SyntaxAnalyser.java:221-253 | an accepted non-empty list is '(' identifier, then a run of ',' identifier pairs, then ')', with the ArgumentList finish sent before the ')' |
| ArgumentLemmas.ArgumentListAccepts | SyntaxAnalyser.java:221-253 | conversely, every '(' identifier, run of ',' identifier pairs, ')' is accepted whole; ArgumentList is commenced after '(', every identifier and comma is sent in order, and ArgumentList is finished before ')' |
| ArgumentLemmas.ArgumentTailPair | SyntaxAnalyser.java:234-239 | one pass of the comma loop consumes and sends ',' and an identifier, and the loop goes on |
| ArgumentLemmas.ArgumentTailAccepts | SyntaxAnalyser.java:234-243 | any run of ',' identifier pairs not followed by ',' is consumed whole, each token sent as a Terminal event in order |
| ArgumentLemmas.ArgumentTailOnlyPairs | SyntaxAnalyser.java:234-243 | whatever the comma loop accepts is such a run; it fails only right after a ',', with MissingArgumentAfterComma |
| ExpressionTrees.FactorAtomStep | SyntaxAnalyser.java:331-334 | an identifier or number is a whole factor: Commence, its Terminal, Finish |
| ExpressionTrees.FactorParenStep | SyntaxAnalyser.java:337-345 | '(' then an accepted expression then ')' is a whole factor |
| ExpressionTrees.TermStep | SyntaxAnalyser.java:306-323 | a term is a factor followed by the multiplicative loop, bracketed by Term events |
| ExpressionTrees.ExpressionStep | SyntaxAnalyser.java:293-303 | an expression is a term followed by the additive loop, bracketed by Expression events |
| ExpressionTrees.TermTailStop | SyntaxAnalyser.java:313-315 | the multiplicative loop stops at once, consuming nothing, at any other lookahead |
| ExpressionTrees.ExpressionTailStop | SyntaxAnalyser.java:297 | the additive loop stops at once, consuming nothing, at any other lookahead |
| ExpressionTrees.TermTailStep | SyntaxAnalyser.java:313-320 | one pass of the multiplicative loop consumes the operator and then a whole nested term |
| ExpressionTrees.ExpressionTailStep | SyntaxAnalyser.java:297-300 | one pass of the additive loop consumes the operator and then a whole nested expression |
| ExpressionTrees.TermTailOnce | SyntaxAnalyser.java:313-320 | at a multiplicative operator the loop ends exactly as one operator and one nested term: the re-test after that pass never succeeds |
| ExpressionTrees.ExpressionTailOnce | SyntaxAnalyser.java:297-300 | at an additive operator the loop ends exactly as one operator and one nested expression: the re-test after that pass never succeeds |
| ExpressionTrees.FactorAccepts | SyntaxAnalyser.java:326-353 | a factor tree written at the lookahead is consumed whole, sending exactly that tree's events |
| ExpressionTrees.TermAccepts | SyntaxAnalyser.java:306-323 | a term tree not followed by '*', '/' or 'mod' is consumed whole; the sink gets right-nested Term events |
| ExpressionTrees.ExprAccepts | SyntaxAnalyser.java:293-303 | an expression tree not followed by an operator is consumed whole; the sink gets right-nested Expression events |
| LookaheadLemmas.AcceptPrefix | SyntaxAnalyser.java:14-21 | acceptTerminal depends only on the lookahead token |
| LookaheadLemmas.StatementPartPrefix | SyntaxAnalyser.java:25-34 | an accepted program is decided by the tokens up to its closing 'end'; a rejected one by those up to the offending token |
| LookaheadLemmas.StatementListPrefix | SyntaxAnalyser.java:37-52 | a statement list's outcome depends only on the tokens up to the lookahead it stops at |
| LookaheadLemmas.SeparatorPrefix | SyntaxAnalyser.java:43-48 | the same for the separator check |
| LookaheadLemmas.StatementPrefix | SyntaxAnalyser.java:57-87 | the same for a statement |
| LookaheadLemmas.AssignmentStatementPrefix | SyntaxAnalyser.java:90-105 | the same for an assignment |
| LookaheadLemmas.IfStatementPrefix | SyntaxAnalyser.java:108-133 | the same for an if statement |
| LookaheadLemmas.ElsePartPrefix | SyntaxAnalyser.java:123-126 | the same for the optional else-branch |
| LookaheadLemmas.WhileStatementPrefix | SyntaxAnalyser.java:136-152 | the same for a while statement |
| LookaheadLemmas.ProcedureStatementPrefix | SyntaxAnalyser.java:155-165 | the same for a call |
| LookaheadLemmas.UntilStatementPrefix | SyntaxAnalyser.java:168-181 | the same for a do-until statement |
| LookaheadLemmas.ForStatementPrefix | SyntaxAnalyser.java:184-218 | the same for a for statement |
| LookaheadLemmas.ForControlPrefix | SyntaxAnalyser.java:189-207 | the same for the control part of a for statement |
| LookaheadLemmas.ForAssignmentPrefix | SyntaxAnalyser.java:192-194 | the same for an assignment inside the for control part |
| LookaheadLemmas.ArgumentListPrefix | SyntaxAnalyser.java:221-253 | the same for an argument list |
| LookaheadLemmas.ArgumentTailPrefix | SyntaxAnalyser.java:234-243 | the same for the comma loop |
| LookaheadLemmas.ConditionPrefix | SyntaxAnalyser.java:256-269 | the same for a condition |
| LookaheadLemmas.ConditionalOperatorPrefix | SyntaxAnalyser.java:272-290 | the same for a conditional operator |
| LookaheadLemmas.ExpressionPrefix | SyntaxAnalyser.java:293-303 | the same for an expression |
| LookaheadLemmas.ExpressionTailPrefix | SyntaxAnalyser.java:297-300 | the same for the additive loop |
| LookaheadLemmas.TermPrefix | SyntaxAnalyser.java:306-323 | the same for a term |
| LookaheadLemmas.TermTailPrefix | SyntaxAnalyser.java:313-320 | the same for the multiplicative loop |
| LookaheadLemmas.FactorPrefix | SyntaxAnalyser.java:326-353 | the same for a factor |
| LookaheadLemmas.ParseLooksNoFurther | SyntaxAnalyser.java:25-34 | any input that agrees up to the closing 'end' of an accepted program gets the same outcome and the same events; for a rejected one, any input that agrees up to the offending token |
| LookaheadLemmas.ParseIgnoresRest | SyntaxAnalyser.java:23-34 | an accepted program gets the same outcome and events whatever tokens replace everything after its closing 'end'; end-of-input is never checked |
| LookaheadLemmas.TrailingTokenAccepted | SyntaxAnalyser.java:25-34 | `begin end x` followed by end-of-input is accepted, stopping with the identifier `x` as the lookahead |
| Nesting.AcceptNests | SyntaxAnalyser.java:14-21 | acceptTerminal leaves the open nonterminals as they were |
| Nesting.StatementPartNests | SyntaxAnalyser.java:25-34 | on an input without `( )`, an accepted program leaves the open nonterminals as they were: its events are well nested |
| Nesting.StatementListNests | SyntaxAnalyser.java:37-52 | the same for a statement list |
| Nesting.SeparatorNests | SyntaxAnalyser.java:43-48 | the same for the separator check |
| Nesting.StatementNests | SyntaxAnalyser.java:57-87 | the same for a statement |
| Nesting.AssignmentStatementNests | SyntaxAnalyser.java:90-105 | an accepted assignment leaves the open nonterminals as they were, on any input |
| Nesting.IfStatementNests | SyntaxAnalyser.java:108-133 | on an input without `( )`, the same for an if statement |
| Nesting.ElsePartNests | SyntaxAnalyser.java:123-126 | the same for the optional else-branch |
| Nesting.WhileStatementNests | SyntaxAnalyser.java:136-152 | the same for a while statement |
| Nesting.ProcedureStatementNests | SyntaxAnalyser.java:155-165 | the same for a call |
| Nesting.ProcedureStatementEmptyList | SyntaxAnalyser.java:155-165 | a call with `( )` is accepted, but its Finish of ProcedureStatement meets the ArgumentList left open, so the events no longer nest |
| Nesting.UntilStatementNests | SyntaxAnalyser.java:168-181 | on an input without `( )`, the same for a do-until statement |
| Nesting.ForStatementNests | SyntaxAnalyser.java:184-218 | the same for a for statement |
| Nesting.ForControlNests | SyntaxAnalyser.java:189-207 | on any input, the same for the control part of a for statement |
| Nesting.ForAssignmentNests | SyntaxAnalyser.java:192-194 | the same for an assignment inside the for control part |
| Nesting.ArgumentListNests | SyntaxAnalyser.java:221-253 | an accepted argument list starts at '('; a non-empty one leaves the open nonterminals as they were, and `( )` leaves ArgumentList open on top of them |
| Nesting.ArgumentListEmptyOpens | SyntaxAnalyser.java:221-227 | `( )` is accepted and leaves ArgumentList open on top of what was open |
| Nesting.ArgumentListFullNests | SyntaxAnalyser.java:221-253 | an accepted list that is not `( )` starts at '(' and leaves the open nonterminals as they were |
| Nesting.ArgumentTailNests | SyntaxAnalyser.java:234-243 | the comma loop leaves the open nonterminals as they were |
| Nesting.ConditionNests | SyntaxAnalyser.java:256-269 | the same for a condition |
| Nesting.ConditionalOperatorNests | SyntaxAnalyser.java:272-290 | the same for a conditional operator |
| Nesting.ExpressionNests | SyntaxAnalyser.java:293-303 | the same for an expression |
| Nesting.ExpressionTailNests | SyntaxAnalyser.java:297-300 | the same for the additive loop |
| Nesting.TermNests | SyntaxAnalyser.java:306-323 | the same for a term |
| Nesting.TermTailNests | SyntaxAnalyser.java:313-320 | the same for the multiplicative loop |
| Nesting.FactorNests | SyntaxAnalyser.java:326-353 | the same for a factor |
| Nesting.ParseNests | SyntaxAnalyser.java:25-34 | on an input without `( )`, an accepted program sends a well-nested trace that closes every nonterminal it opens |

## Left out

- The lexical analyser and the constructor (SyntaxAnalyser.java:9-12) read a
  file. The model takes the lexer's whole output as a given token sequence
  that ends with the end-of-input token.
- The abstract base class that primes the first lookahead and starts the
  parse is not part of this model. Parsing starts at index 0 with an empty
  sink (`Analyser.SyntaxAnalyser.constructor`, `Productions.Parse`).
- `reportError` (Generate.java:4-11) formats a message, prints it and
  throws. The model replaces it with a `Fail` outcome that carries the
  state at the offending token and an `Error` tag naming the call site. It
  does not model message strings, file names, printing or the
  exception/`IOException` machinery.
- How the sink renders the tree is not modelled; the sink is the sequence
  of events it receives.
- Token text and line numbers are carried, but the analyser never inspects
  them, so no property is stated about them.
- Productions.Accept: requires that the expected kind is not end-of-input.
  No procedure of the analyser ever asks to accept end-of-input.
- Productions.StatementPart and the other production functions state only
  that the cursor moves forward and stays on a token. What they accept and
  send is stated by the lemmas in the table, not by each function's own
  contract.
- Several procedures are split into helper functions: `Separator`,
  `ElsePart`, `ForControl`, `ForAssignment`, `ArgumentTail`,
  `ExpressionTail` and `TermTail`. In the analyser class, `ForControl` and
  `ForAssignment` are separate methods too; the other loops are inline, as
  in the source.
- ExpressionTrees.ExprAccepts: proves that every well-formed expression
  tree is accepted with exactly its right-nested events. The converse, that
  every accepted expression is such a tree, is not proved.
- Nesting.StatementPartNests and the other statement-level nesting lemmas
  assume an input without `( )`. With one, the analyser's events do not
  nest at all (`Nesting.ProcedureStatementEmptyList`), so no nesting
  property holds there.
