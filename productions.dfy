// The syntax analyser as functions: one function per production of
// SyntaxAnalyser.java, each taking the analyser's state before the call and
// giving how the call ends. A reported error is a `Fail` outcome; `:-`
// passes it up unchanged, as the thrown exception unwinds every caller.
module Productions {
  import opened Tokens
  import opened Trace
  import opened Outcomes

  /** acceptTerminal: consume the lookahead if it has the expected kind and
      send it to the sink; otherwise report it. No production ever expects
      end-of-input. */
  function Accept(toks: seq<Token>, st: Cursor, k: Kind): (r: Outcome)
    requires InBounds(toks, st) && k != Eof
    ensures Moves(toks, st, r)
    ensures r.Ok? <==> Look(toks, st) == k
    ensures r.Ok? ==> r.c == Cursor(st.pos + 1, st.trace + [Terminal(toks[st.pos])])
    ensures r.Fail? ==> r == Fail(st, Expected(k))
  {
    if Look(toks, st) == k then
      Ok(Cursor(st.pos + 1, st.trace + [Terminal(toks[st.pos])]))
    else
      Fail(st, Expected(k))
  }

  /** The whole program: 'begin' StatementList 'end'. */
  function StatementPart(toks: seq<Token>, st: Cursor): (r: Outcome)
    requires InBounds(toks, st)
    ensures Moves(toks, st, r)
  {
    var s0 := st.Emit(Commence("StatementPart"));
    var s1 :- Accept(toks, s0, Begin);
    var s2 :- StatementList(toks, s1);
    var s3 :- Accept(toks, s2, End);
    Ok(s3.Emit(Finish("StatementPart")))
  }

  /** The statement-list loop. While the lookahead does not end the list, one
      pass commences a StatementList, parses a statement and then either
      consumes ';' and parses the rest of the list recursively, or stops at
      'end'/'else', or reports a missing separator. */
  function StatementList(toks: seq<Token>, st: Cursor): (r: Outcome)
    requires InBounds(toks, st)
    ensures Moves(toks, st, r)
    decreases |toks| - st.pos, 2
  {
    if EndsList(Look(toks, st)) then Ok(st)
    else
      var s1 :- Statement(toks, st.Emit(Commence("StatementList")));
      var s2 :- Separator(toks, s1);
      StatementList(toks, s2.Emit(Finish("StatementList")))
  }

  /** What may follow a statement in a list: ';' and the rest of the list,
      or 'end'/'else' (left for the caller); anything else is reported. */
  function Separator(toks: seq<Token>, st: Cursor): (r: Outcome)
    requires InBounds(toks, st)
    ensures Moves(toks, st, r)
    decreases |toks| - st.pos, 0
  {
    if Look(toks, st) == Semicolon then
      var s1 :- Accept(toks, st, Semicolon);
      StatementList(toks, s1)
    else if Look(toks, st) != End && Look(toks, st) != Else && Look(toks, st) != Semicolon then
      Fail(st, MissingSeparator)
    else
      Ok(st)
  }

  /** Dispatch on the lookahead to exactly one statement production. */
  function Statement(toks: seq<Token>, st: Cursor): (r: Outcome)
    requires InBounds(toks, st)
    ensures Moves(toks, st, r)
    ensures r.Ok? ==> st.pos < r.c.pos
    decreases |toks| - st.pos, 1
  {
    var s0 := st.Emit(Commence("Statement"));
    var k := Look(toks, s0);
    var s1 :- if k == Call then ProcedureStatement(toks, s0)
              else if k == Identifier then AssignmentStatement(toks, s0)
              else if k == While then WhileStatement(toks, s0)
              else if k == For then ForStatement(toks, s0)
              else if k == If then IfStatement(toks, s0)
              else if k == Do then UntilStatement(toks, s0)
              else if k == Else then Fail(s0, ElseWithoutIf)
              else Fail(s0, UnknownStatement);
    Ok(s1.Emit(Finish("Statement")))
  }

  /** identifier ':=' (stringConstant | Expression) */
  function AssignmentStatement(toks: seq<Token>, st: Cursor): (r: Outcome)
    requires InBounds(toks, st)
    ensures Moves(toks, st, r)
    ensures r.Ok? ==> st.pos < r.c.pos
    decreases |toks| - st.pos, 0
  {
    var s0 := st.Emit(Commence("AssignmentStatement"));
    var s1 :- Accept(toks, s0, Identifier);
    var s2 :- Accept(toks, s1, Becomes);
    var s3 :- if Look(toks, s2) == StringConstant then Accept(toks, s2, StringConstant)
              else Expression(toks, s2);
    Ok(s3.Emit(Finish("AssignmentStatement")))
  }

  /** 'if' Condition 'then' StatementList ['else' StatementList] 'end' 'if' */
  function IfStatement(toks: seq<Token>, st: Cursor): (r: Outcome)
    requires InBounds(toks, st)
    ensures Moves(toks, st, r)
    ensures r.Ok? ==> st.pos < r.c.pos
    decreases |toks| - st.pos, 0
  {
    var s0 := st.Emit(Commence("IfStatement"));
    var s1 :- Accept(toks, s0, If);
    var s2 :- Condition(toks, s1);
    var s3 :- Accept(toks, s2, Then);
    var s4 :- StatementList(toks, s3);
    var s5 :- ElsePart(toks, s4);
    var s6 :- Accept(toks, s5, End);
    var s7 :- Accept(toks, s6, If);
    Ok(s7.Emit(Finish("IfStatement")))
  }

  /** The optional else-branch of an if statement: taken exactly when the
      lookahead after the then-branch is 'else'. */
  function ElsePart(toks: seq<Token>, st: Cursor): (r: Outcome)
    requires InBounds(toks, st)
    ensures Moves(toks, st, r)
    decreases |toks| - st.pos, 0
  {
    if Look(toks, st) == Else then
      var s1 :- Accept(toks, st, Else);
      StatementList(toks, s1)
    else
      Ok(st)
  }

  /** 'while' Condition 'loop' StatementList 'end' 'loop' */
  function WhileStatement(toks: seq<Token>, st: Cursor): (r: Outcome)
    requires InBounds(toks, st)
    ensures Moves(toks, st, r)
    ensures r.Ok? ==> st.pos < r.c.pos
    decreases |toks| - st.pos, 0
  {
    var s0 := st.Emit(Commence("WhileStatement"));
    var s1 :- Accept(toks, s0, While);
    var s2 :- Condition(toks, s1);
    var s3 :- Accept(toks, s2, Loop);
    var s4 :- StatementList(toks, s3);
    var s5 :- Accept(toks, s4, End);
    var s6 :- Accept(toks, s5, Loop);
    Ok(s6.Emit(Finish("WhileStatement")))
  }

  /** 'call' identifier ArgumentList */
  function ProcedureStatement(toks: seq<Token>, st: Cursor): (r: Outcome)
    requires InBounds(toks, st)
    ensures Moves(toks, st, r)
    ensures r.Ok? ==> st.pos < r.c.pos
    decreases |toks| - st.pos, 0
  {
    var s0 := st.Emit(Commence("ProcedureStatement"));
    var s1 :- Accept(toks, s0, Call);
    var s2 :- Accept(toks, s1, Identifier);
    var s3 :- ArgumentList(toks, s2);
    Ok(s3.Emit(Finish("ProcedureStatement")))
  }

  /** 'do' StatementList 'until' Condition */
  function UntilStatement(toks: seq<Token>, st: Cursor): (r: Outcome)
    requires InBounds(toks, st)
    ensures Moves(toks, st, r)
    ensures r.Ok? ==> st.pos < r.c.pos
    decreases |toks| - st.pos, 0
  {
    var s0 := st.Emit(Commence("DoUntilStatement"));
    var s1 :- Accept(toks, s0, Do);
    var s2 :- StatementList(toks, s1);
    var s3 :- Accept(toks, s2, Until);
    var s4 :- Condition(toks, s3);
    Ok(s4.Emit(Finish("DoUntilStatement")))
  }

  /** 'for' '(' identifier ':=' Expression ';' Condition ';'
      identifier ':=' Expression ')' 'do' StatementList 'end' 'loop' */
  function ForStatement(toks: seq<Token>, st: Cursor): (r: Outcome)
    requires InBounds(toks, st)
    ensures Moves(toks, st, r)
    ensures r.Ok? ==> st.pos < r.c.pos
    decreases |toks| - st.pos, 0
  {
    var s0 := st.Emit(Commence("ForStatement"));
    var s1 :- Accept(toks, s0, For);
    var s2 :- ForControl(toks, s1);
    var s3 :- Accept(toks, s2, Do);
    var s4 :- StatementList(toks, s3);
    var s5 :- Accept(toks, s4, End);
    var s6 :- Accept(toks, s5, Loop);
    Ok(s6.Emit(Finish("ForStatement")))
  }

  /** The bracketed control part of a for statement,
      '(' assignment ';' condition ';' assignment ')'; it records no
      nonterminal of its own. */
  function ForControl(toks: seq<Token>, st: Cursor): (r: Outcome)
    requires InBounds(toks, st)
    ensures Moves(toks, st, r)
    ensures r.Ok? ==> st.pos < r.c.pos
    decreases |toks| - st.pos, 0
  {
    var s1 :- Accept(toks, st, LeftParen);
    var s2 :- ForAssignment(toks, s1);
    var s3 :- Accept(toks, s2, Semicolon);
    var s4 :- Condition(toks, s3);
    var s5 :- Accept(toks, s4, Semicolon);
    var s6 :- ForAssignment(toks, s5);
    Accept(toks, s6, RightParen)
  }

  /** identifier ':=' expression, as it appears twice inside ForControl. */
  function ForAssignment(toks: seq<Token>, st: Cursor): (r: Outcome)
    requires InBounds(toks, st)
    ensures Moves(toks, st, r)
    ensures r.Ok? ==> st.pos < r.c.pos
    decreases |toks| - st.pos, 0
  {
    var s1 :- Accept(toks, st, Identifier);
    var s2 :- Accept(toks, s1, Becomes);
    Expression(toks, s2)
  }

  /** '(' [identifier {',' identifier}] ')'. The '(' is consumed before
      ArgumentList is commenced; an empty list never finishes it. */
  function ArgumentList(toks: seq<Token>, st: Cursor): (r: Outcome)
    requires InBounds(toks, st)
    ensures Moves(toks, st, r)
    ensures r.Ok? ==> st.pos < r.c.pos
  {
    var s1 :- Accept(toks, st, LeftParen);
    var s2 := s1.Emit(Commence("ArgumentList"));
    if Look(toks, s2) == RightParen then
      Accept(toks, s2, RightParen)
    else
      var s3 :- if Look(toks, s2) == Identifier then
                  (var s :- Accept(toks, s2, Identifier); ArgumentTail(toks, s))
                else
                  Fail(s2, MissingArgument);
      Accept(toks, s3.Emit(Finish("ArgumentList")), RightParen)
  }

  /** The loop over further arguments: while the lookahead is ',', consume
      it and then an identifier. */
  function ArgumentTail(toks: seq<Token>, st: Cursor): (r: Outcome)
    requires InBounds(toks, st)
    ensures Moves(toks, st, r)
    ensures r.Ok? ==> Look(toks, r.c) != Comma
    decreases |toks| - st.pos
  {
    if Look(toks, st) == Comma then
      var s1 :- Accept(toks, st, Comma);
      var s2 :- if Look(toks, s1) == Identifier then Accept(toks, s1, Identifier)
                else Fail(s1, MissingArgumentAfterComma);
      ArgumentTail(toks, s2)
    else
      Ok(st)
  }

  /** identifier ConditionalOperator numberConstant */
  function Condition(toks: seq<Token>, st: Cursor): (r: Outcome)
    requires InBounds(toks, st)
    ensures Moves(toks, st, r)
    ensures r.Ok? ==> st.pos < r.c.pos
  {
    var s0 := st.Emit(Commence("Condition"));
    var s1 :- Accept(toks, s0, Identifier);
    var s2 :- ConditionalOperator(toks, s1);
    var s3 :- Accept(toks, s2, NumberConstant);
    Ok(s3.Emit(Finish("Condition")))
  }

  /** One of the six relational operators. ConditionalOperator is finished
      only on the accepting branch. */
  function ConditionalOperator(toks: seq<Token>, st: Cursor): (r: Outcome)
    requires InBounds(toks, st)
    ensures Moves(toks, st, r)
  {
    var s0 := st.Emit(Commence("ConditionalOperator"));
    if IsRelational(Look(toks, s0)) then
      var s1 :- Accept(toks, s0, Look(toks, s0));
      Ok(s1.Emit(Finish("ConditionalOperator")))
    else
      Fail(s0, MissingComparison)
  }

  /** Term {('+' | '-') Expression}: the operator case recurses into
      Expression itself, so additive chains nest to the right. */
  function Expression(toks: seq<Token>, st: Cursor): (r: Outcome)
    requires InBounds(toks, st)
    ensures Moves(toks, st, r)
    ensures r.Ok? ==> st.pos < r.c.pos && !IsAdditive(Look(toks, r.c))
    decreases |toks| - st.pos, 4
  {
    var s1 :- Term(toks, st.Emit(Commence("Expression")));
    var s2 :- ExpressionTail(toks, s1);
    Ok(s2.Emit(Finish("Expression")))
  }

  /** The loop of Expression: while the lookahead is '+' or '-', consume it
      and parse a whole Expression. */
  function ExpressionTail(toks: seq<Token>, st: Cursor): (r: Outcome)
    requires InBounds(toks, st)
    ensures Moves(toks, st, r)
    ensures r.Ok? ==> !IsAdditive(Look(toks, r.c))
    decreases |toks| - st.pos, 3
  {
    if IsAdditive(Look(toks, st)) then
      var s1 :- Accept(toks, st, Look(toks, st));
      var s2 :- Expression(toks, s1);
      ExpressionTail(toks, s2)
    else
      Ok(st)
  }

  /** Factor {('*' | '/' | 'mod') Term}: multiplicative chains nest to the
      right, as additive ones do. */
  function Term(toks: seq<Token>, st: Cursor): (r: Outcome)
    requires InBounds(toks, st)
    ensures Moves(toks, st, r)
    ensures r.Ok? ==> st.pos < r.c.pos && !IsMultiplicative(Look(toks, r.c))
    decreases |toks| - st.pos, 2
  {
    var s1 :- Factor(toks, st.Emit(Commence("Term")));
    var s2 :- TermTail(toks, s1);
    Ok(s2.Emit(Finish("Term")))
  }

  /** The loop of Term: while the lookahead is '*', '/' or 'mod', consume it
      and parse a whole Term. */
  function TermTail(toks: seq<Token>, st: Cursor): (r: Outcome)
    requires InBounds(toks, st)
    ensures Moves(toks, st, r)
    ensures r.Ok? ==> !IsMultiplicative(Look(toks, r.c))
    decreases |toks| - st.pos, 1
  {
    if IsMultiplicative(Look(toks, st)) then
      var s1 :- Accept(toks, st, Look(toks, st));
      var s2 :- Term(toks, s1);
      TermTail(toks, s2)
    else
      Ok(st)
  }

  /** identifier | numberConstant | '(' Expression ')' */
  function Factor(toks: seq<Token>, st: Cursor): (r: Outcome)
    requires InBounds(toks, st)
    ensures Moves(toks, st, r)
    ensures r.Ok? ==> st.pos < r.c.pos
    decreases |toks| - st.pos, 0
  {
    var s0 := st.Emit(Commence("Factor"));
    var s1 :- if Look(toks, s0) == Identifier || Look(toks, s0) == NumberConstant then
                Accept(toks, s0, Look(toks, s0))
              else if Look(toks, s0) == LeftParen then
                (var a :- Accept(toks, s0, LeftParen);
                 var b :- Expression(toks, a);
                 Accept(toks, b, RightParen))
              else
                Fail(s0, MissingFactor);
    Ok(s1.Emit(Finish("Factor")))
  }

  /** The entry point: parse from the first token with an empty sink. */
  function Parse(toks: seq<Token>): (r: Outcome)
    requires WellFormed(toks)
    ensures InBounds(toks, r.c)
  {
    StatementPart(toks, Cursor(0, []))
  }
}
