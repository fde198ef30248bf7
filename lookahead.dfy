// How far each production looks. The analyser reads one token beyond the
// last one it consumes, and no further: a production's outcome is decided by
// the tokens up to and including the lookahead it stops at. The whole
// program is decided by the tokens up to its closing 'end' when it is
// accepted, so nothing after that 'end' is examined.
module LookaheadLemmas {
  import opened Tokens
  import opened Trace
  import opened Outcomes
  import opened Productions

  /** The two token sequences have the same first `n` tokens. */
  predicate Agree(toks: seq<Token>, other: seq<Token>, n: nat) {
    n <= |toks| && n <= |other| && forall i :: 0 <= i < n ==> toks[i] == other[i]
  }

  /** The window a production's outcome depends on: up to the lookahead it
      stops at. */
  predicate Window(toks: seq<Token>, other: seq<Token>, r: Outcome) {
    Agree(toks, other, r.c.pos + 1)
  }

  lemma AcceptPrefix(toks: seq<Token>, other: seq<Token>, st: Cursor, k: Kind)
    requires InBounds(toks, st) && InBounds(other, st) && k != Eof
    requires Agree(toks, other, st.pos + 1)
    ensures Accept(other, st, k) == Accept(toks, st, k)
  {
    assert toks[st.pos] == other[st.pos];
  }

  /** The whole program: an accepted one is decided by the tokens up to its
      closing 'end', a rejected one by those up to the offending token. */
  lemma StatementPartPrefix(toks: seq<Token>, other: seq<Token>, st: Cursor)
    requires InBounds(toks, st) && InBounds(other, st)
    requires var r := StatementPart(toks, st); Agree(toks, other, if r.Ok? then r.c.pos else r.c.pos + 1)
    ensures StatementPart(other, st) == StatementPart(toks, st)
  {
    var s0 := st.Emit(Commence("StatementPart"));
    var r1 := Accept(toks, s0, Begin);
    AcceptPrefix(toks, other, s0, Begin);
    if r1.Fail? { return; }
    var r2 := StatementList(toks, r1.c);
    StatementListPrefix(toks, other, r1.c);
    if r2.Fail? { return; }
    AcceptPrefix(toks, other, r2.c, End);
  }

  lemma {:induction false} StatementListPrefix(toks: seq<Token>, other: seq<Token>, st: Cursor)
    requires InBounds(toks, st) && InBounds(other, st) && Window(toks, other, StatementList(toks, st))
    ensures StatementList(other, st) == StatementList(toks, st)
    decreases |toks| - st.pos, 2
  {
    assert toks[st.pos] == other[st.pos];
    if EndsList(Look(toks, st)) { return; }
    var s0 := st.Emit(Commence("StatementList"));
    var r1 := Statement(toks, s0);
    StatementPrefix(toks, other, s0);
    if r1.Fail? { return; }
    var r2 := Separator(toks, r1.c);
    SeparatorPrefix(toks, other, r1.c);
    if r2.Fail? { return; }
    StatementListPrefix(toks, other, r2.c.Emit(Finish("StatementList")));
  }

  lemma {:induction false} SeparatorPrefix(toks: seq<Token>, other: seq<Token>, st: Cursor)
    requires InBounds(toks, st) && InBounds(other, st) && Window(toks, other, Separator(toks, st))
    ensures Separator(other, st) == Separator(toks, st)
    decreases |toks| - st.pos, 0
  {
    assert toks[st.pos] == other[st.pos];
    if Look(toks, st) == Semicolon {
      var a := Accept(toks, st, Semicolon);
      AcceptPrefix(toks, other, st, Semicolon);
      StatementListPrefix(toks, other, a.c);
    }
  }

  lemma {:induction false} StatementPrefix(toks: seq<Token>, other: seq<Token>, st: Cursor)
    requires InBounds(toks, st) && InBounds(other, st) && Window(toks, other, Statement(toks, st))
    ensures Statement(other, st) == Statement(toks, st)
    decreases |toks| - st.pos, 1
  {
    assert toks[st.pos] == other[st.pos];
    var s0 := st.Emit(Commence("Statement"));
    var k := Look(toks, s0);
    if k == Call {
      ProcedureStatementPrefix(toks, other, s0);
    } else if k == Identifier {
      AssignmentStatementPrefix(toks, other, s0);
    } else if k == While {
      WhileStatementPrefix(toks, other, s0);
    } else if k == For {
      ForStatementPrefix(toks, other, s0);
    } else if k == If {
      IfStatementPrefix(toks, other, s0);
    } else if k == Do {
      UntilStatementPrefix(toks, other, s0);
    }
  }

  lemma {:induction false} AssignmentStatementPrefix(toks: seq<Token>, other: seq<Token>, st: Cursor)
    requires InBounds(toks, st) && InBounds(other, st) && Window(toks, other, AssignmentStatement(toks, st))
    ensures AssignmentStatement(other, st) == AssignmentStatement(toks, st)
    decreases |toks| - st.pos, 0
  {
    var s0 := st.Emit(Commence("AssignmentStatement"));
    var r1 := Accept(toks, s0, Identifier);
    var r2 := Accept(toks, r1.c, Becomes);
    var r3 := if Look(toks, r2.c) == StringConstant then Accept(toks, r2.c, StringConstant)
              else Expression(toks, r2.c);
    assert AssignmentStatement(toks, st) ==
      if r1.Fail? then r1 else if r2.Fail? then r2 else if r3.Fail? then r3
      else Ok(r3.c.Emit(Finish("AssignmentStatement")));
    AcceptPrefix(toks, other, s0, Identifier);
    if r1.Fail? { return; }
    AcceptPrefix(toks, other, r1.c, Becomes);
    if r2.Fail? { return; }
    assert toks[r2.c.pos] == other[r2.c.pos];
    if Look(toks, r2.c) == StringConstant {
      AcceptPrefix(toks, other, r2.c, StringConstant);
    } else {
      ExpressionPrefix(toks, other, r2.c);
    }
  }

  lemma {:induction false} IfStatementPrefix(toks: seq<Token>, other: seq<Token>, st: Cursor)
    requires InBounds(toks, st) && InBounds(other, st) && Window(toks, other, IfStatement(toks, st))
    ensures IfStatement(other, st) == IfStatement(toks, st)
    decreases |toks| - st.pos, 0
  {
    var s0 := st.Emit(Commence("IfStatement"));
    var r1 := Accept(toks, s0, If);
    var r2 := Condition(toks, r1.c);
    var r3 := Accept(toks, r2.c, Then);
    var r4 := StatementList(toks, r3.c);
    var r5 := ElsePart(toks, r4.c);
    var r6 := Accept(toks, r5.c, End);
    var r7 := Accept(toks, r6.c, If);
    assert IfStatement(toks, st) ==
      if r1.Fail? then r1 else if r2.Fail? then r2 else if r3.Fail? then r3 else
      if r4.Fail? then r4 else if r5.Fail? then r5 else if r6.Fail? then r6 else
      if r7.Fail? then r7 else Ok(r7.c.Emit(Finish("IfStatement")));
    AcceptPrefix(toks, other, s0, If);
    if r1.Fail? { return; }
    ConditionPrefix(toks, other, r1.c);
    if r2.Fail? { return; }
    AcceptPrefix(toks, other, r2.c, Then);
    if r3.Fail? { return; }
    StatementListPrefix(toks, other, r3.c);
    if r4.Fail? { return; }
    ElsePartPrefix(toks, other, r4.c);
    if r5.Fail? { return; }
    AcceptPrefix(toks, other, r5.c, End);
    if r6.Fail? { return; }
    AcceptPrefix(toks, other, r6.c, If);
  }

  lemma {:induction false} ElsePartPrefix(toks: seq<Token>, other: seq<Token>, st: Cursor)
    requires InBounds(toks, st) && InBounds(other, st) && Window(toks, other, ElsePart(toks, st))
    ensures ElsePart(other, st) == ElsePart(toks, st)
    decreases |toks| - st.pos, 0
  {
    assert toks[st.pos] == other[st.pos];
    if Look(toks, st) == Else {
      var a := Accept(toks, st, Else);
      AcceptPrefix(toks, other, st, Else);
      StatementListPrefix(toks, other, a.c);
    }
  }

  lemma {:induction false} WhileStatementPrefix(toks: seq<Token>, other: seq<Token>, st: Cursor)
    requires InBounds(toks, st) && InBounds(other, st) && Window(toks, other, WhileStatement(toks, st))
    ensures WhileStatement(other, st) == WhileStatement(toks, st)
    decreases |toks| - st.pos, 0
  {
    var s0 := st.Emit(Commence("WhileStatement"));
    var r1 := Accept(toks, s0, While);
    var r2 := Condition(toks, r1.c);
    var r3 := Accept(toks, r2.c, Loop);
    var r4 := StatementList(toks, r3.c);
    var r5 := Accept(toks, r4.c, End);
    var r6 := Accept(toks, r5.c, Loop);
    assert WhileStatement(toks, st) ==
      if r1.Fail? then r1 else if r2.Fail? then r2 else if r3.Fail? then r3 else
      if r4.Fail? then r4 else if r5.Fail? then r5 else if r6.Fail? then r6 else
      Ok(r6.c.Emit(Finish("WhileStatement")));
    AcceptPrefix(toks, other, s0, While);
    if r1.Fail? { return; }
    ConditionPrefix(toks, other, r1.c);
    if r2.Fail? { return; }
    AcceptPrefix(toks, other, r2.c, Loop);
    if r3.Fail? { return; }
    StatementListPrefix(toks, other, r3.c);
    if r4.Fail? { return; }
    AcceptPrefix(toks, other, r4.c, End);
    if r5.Fail? { return; }
    AcceptPrefix(toks, other, r5.c, Loop);
  }

  lemma {:induction false} ProcedureStatementPrefix(toks: seq<Token>, other: seq<Token>, st: Cursor)
    requires InBounds(toks, st) && InBounds(other, st) && Window(toks, other, ProcedureStatement(toks, st))
    ensures ProcedureStatement(other, st) == ProcedureStatement(toks, st)
    decreases |toks| - st.pos, 0
  {
    var s0 := st.Emit(Commence("ProcedureStatement"));
    var r1 := Accept(toks, s0, Call);
    var r2 := Accept(toks, r1.c, Identifier);
    var r3 := ArgumentList(toks, r2.c);
    assert ProcedureStatement(toks, st) ==
      if r1.Fail? then r1 else if r2.Fail? then r2 else if r3.Fail? then r3 else
      Ok(r3.c.Emit(Finish("ProcedureStatement")));
    AcceptPrefix(toks, other, s0, Call);
    if r1.Fail? { return; }
    AcceptPrefix(toks, other, r1.c, Identifier);
    if r2.Fail? { return; }
    ArgumentListPrefix(toks, other, r2.c);
  }

  lemma {:induction false} UntilStatementPrefix(toks: seq<Token>, other: seq<Token>, st: Cursor)
    requires InBounds(toks, st) && InBounds(other, st) && Window(toks, other, UntilStatement(toks, st))
    ensures UntilStatement(other, st) == UntilStatement(toks, st)
    decreases |toks| - st.pos, 0
  {
    var s0 := st.Emit(Commence("DoUntilStatement"));
    var r1 := Accept(toks, s0, Do);
    var r2 := StatementList(toks, r1.c);
    var r3 := Accept(toks, r2.c, Until);
    var r4 := Condition(toks, r3.c);
    assert UntilStatement(toks, st) ==
      if r1.Fail? then r1 else if r2.Fail? then r2 else if r3.Fail? then r3 else
      if r4.Fail? then r4 else Ok(r4.c.Emit(Finish("DoUntilStatement")));
    AcceptPrefix(toks, other, s0, Do);
    if r1.Fail? { return; }
    StatementListPrefix(toks, other, r1.c);
    if r2.Fail? { return; }
    AcceptPrefix(toks, other, r2.c, Until);
    if r3.Fail? { return; }
    ConditionPrefix(toks, other, r3.c);
  }

  lemma {:induction false} ForStatementPrefix(toks: seq<Token>, other: seq<Token>, st: Cursor)
    requires InBounds(toks, st) && InBounds(other, st) && Window(toks, other, ForStatement(toks, st))
    ensures ForStatement(other, st) == ForStatement(toks, st)
    decreases |toks| - st.pos, 0
  {
    var s0 := st.Emit(Commence("ForStatement"));
    var r1 := Accept(toks, s0, For);
    var r2 := ForControl(toks, r1.c);
    var r3 := Accept(toks, r2.c, Do);
    var r4 := StatementList(toks, r3.c);
    var r5 := Accept(toks, r4.c, End);
    var r6 := Accept(toks, r5.c, Loop);
    assert ForStatement(toks, st) ==
      if r1.Fail? then r1 else if r2.Fail? then r2 else if r3.Fail? then r3 else
      if r4.Fail? then r4 else if r5.Fail? then r5 else if r6.Fail? then r6 else
      Ok(r6.c.Emit(Finish("ForStatement")));
    AcceptPrefix(toks, other, s0, For);
    if r1.Fail? { return; }
    ForControlPrefix(toks, other, r1.c);
    if r2.Fail? { return; }
    AcceptPrefix(toks, other, r2.c, Do);
    if r3.Fail? { return; }
    StatementListPrefix(toks, other, r3.c);
    if r4.Fail? { return; }
    AcceptPrefix(toks, other, r4.c, End);
    if r5.Fail? { return; }
    AcceptPrefix(toks, other, r5.c, Loop);
  }

  lemma {:induction false} ForControlPrefix(toks: seq<Token>, other: seq<Token>, st: Cursor)
    requires InBounds(toks, st) && InBounds(other, st) && Window(toks, other, ForControl(toks, st))
    ensures ForControl(other, st) == ForControl(toks, st)
    decreases |toks| - st.pos, 0
  {
    var r1 := Accept(toks, st, LeftParen);
    var r2 := ForAssignment(toks, r1.c);
    var r3 := Accept(toks, r2.c, Semicolon);
    var r4 := Condition(toks, r3.c);
    var r5 := Accept(toks, r4.c, Semicolon);
    var r6 := ForAssignment(toks, r5.c);
    var r7 := Accept(toks, r6.c, RightParen);
    assert ForControl(toks, st) ==
      if r1.Fail? then r1 else if r2.Fail? then r2 else if r3.Fail? then r3 else
      if r4.Fail? then r4 else if r5.Fail? then r5 else if r6.Fail? then r6 else r7;
    AcceptPrefix(toks, other, st, LeftParen);
    if r1.Fail? { return; }
    ForAssignmentPrefix(toks, other, r1.c);
    if r2.Fail? { return; }
    AcceptPrefix(toks, other, r2.c, Semicolon);
    if r3.Fail? { return; }
    ConditionPrefix(toks, other, r3.c);
    if r4.Fail? { return; }
    AcceptPrefix(toks, other, r4.c, Semicolon);
    if r5.Fail? { return; }
    ForAssignmentPrefix(toks, other, r5.c);
    if r6.Fail? { return; }
    AcceptPrefix(toks, other, r6.c, RightParen);
  }

  lemma {:induction false} ForAssignmentPrefix(toks: seq<Token>, other: seq<Token>, st: Cursor)
    requires InBounds(toks, st) && InBounds(other, st) && Window(toks, other, ForAssignment(toks, st))
    ensures ForAssignment(other, st) == ForAssignment(toks, st)
    decreases |toks| - st.pos, 0
  {
    var r1 := Accept(toks, st, Identifier);
    AcceptPrefix(toks, other, st, Identifier);
    if r1.Fail? { return; }
    var r2 := Accept(toks, r1.c, Becomes);
    AcceptPrefix(toks, other, r1.c, Becomes);
    if r2.Fail? { return; }
    ExpressionPrefix(toks, other, r2.c);
  }

  lemma ArgumentListPrefix(toks: seq<Token>, other: seq<Token>, st: Cursor)
    requires InBounds(toks, st) && InBounds(other, st) && Window(toks, other, ArgumentList(toks, st))
    ensures ArgumentList(other, st) == ArgumentList(toks, st)
  {
    var r1 := Accept(toks, st, LeftParen);
    AcceptPrefix(toks, other, st, LeftParen);
    if r1.Fail? { return; }
    var s2 := r1.c.Emit(Commence("ArgumentList"));
    assert toks[s2.pos] == other[s2.pos];
    if Look(toks, s2) == RightParen {
      AcceptPrefix(toks, other, s2, RightParen);
      return;
    }
    if Look(toks, s2) != Identifier { return; }
    var a := Accept(toks, s2, Identifier);
    AcceptPrefix(toks, other, s2, Identifier);
    var r3 := ArgumentTail(toks, a.c);
    ArgumentTailPrefix(toks, other, a.c);
    if r3.Fail? { return; }
    AcceptPrefix(toks, other, r3.c.Emit(Finish("ArgumentList")), RightParen);
  }

  lemma {:induction false} ArgumentTailPrefix(toks: seq<Token>, other: seq<Token>, st: Cursor)
    requires InBounds(toks, st) && InBounds(other, st) && Window(toks, other, ArgumentTail(toks, st))
    ensures ArgumentTail(other, st) == ArgumentTail(toks, st)
    decreases |toks| - st.pos
  {
    assert toks[st.pos] == other[st.pos];
    if Look(toks, st) != Comma { return; }
    var a := Accept(toks, st, Comma);
    AcceptPrefix(toks, other, st, Comma);
    assert toks[a.c.pos] == other[a.c.pos];
    if Look(toks, a.c) != Identifier { return; }
    var b := Accept(toks, a.c, Identifier);
    AcceptPrefix(toks, other, a.c, Identifier);
    ArgumentTailPrefix(toks, other, b.c);
  }

  lemma ConditionPrefix(toks: seq<Token>, other: seq<Token>, st: Cursor)
    requires InBounds(toks, st) && InBounds(other, st) && Window(toks, other, Condition(toks, st))
    ensures Condition(other, st) == Condition(toks, st)
  {
    var s0 := st.Emit(Commence("Condition"));
    var r1 := Accept(toks, s0, Identifier);
    var r2 := ConditionalOperator(toks, r1.c);
    var r3 := Accept(toks, r2.c, NumberConstant);
    assert Condition(toks, st) ==
      if r1.Fail? then r1 else if r2.Fail? then r2 else if r3.Fail? then r3
      else Ok(r3.c.Emit(Finish("Condition")));
    AcceptPrefix(toks, other, s0, Identifier);
    if r1.Fail? { return; }
    ConditionalOperatorPrefix(toks, other, r1.c);
    if r2.Fail? { return; }
    AcceptPrefix(toks, other, r2.c, NumberConstant);
  }

  lemma ConditionalOperatorPrefix(toks: seq<Token>, other: seq<Token>, st: Cursor)
    requires InBounds(toks, st) && InBounds(other, st) && Window(toks, other, ConditionalOperator(toks, st))
    ensures ConditionalOperator(other, st) == ConditionalOperator(toks, st)
  {
    assert toks[st.pos] == other[st.pos];
  }

  lemma {:induction false} ExpressionPrefix(toks: seq<Token>, other: seq<Token>, st: Cursor)
    requires InBounds(toks, st) && InBounds(other, st) && Window(toks, other, Expression(toks, st))
    ensures Expression(other, st) == Expression(toks, st)
    decreases |toks| - st.pos, 4
  {
    var s0 := st.Emit(Commence("Expression"));
    var r1 := Term(toks, s0);
    TermPrefix(toks, other, s0);
    if r1.Fail? { return; }
    ExpressionTailPrefix(toks, other, r1.c);
  }

  lemma {:induction false} ExpressionTailPrefix(toks: seq<Token>, other: seq<Token>, st: Cursor)
    requires InBounds(toks, st) && InBounds(other, st) && Window(toks, other, ExpressionTail(toks, st))
    ensures ExpressionTail(other, st) == ExpressionTail(toks, st)
    decreases |toks| - st.pos, 3
  {
    assert toks[st.pos] == other[st.pos];
    if !IsAdditive(Look(toks, st)) { return; }
    var a := Accept(toks, st, Look(toks, st));
    AcceptPrefix(toks, other, st, Look(toks, st));
    var r2 := Expression(toks, a.c);
    ExpressionPrefix(toks, other, a.c);
    if r2.Fail? { return; }
    ExpressionTailPrefix(toks, other, r2.c);
  }

  lemma {:induction false} TermPrefix(toks: seq<Token>, other: seq<Token>, st: Cursor)
    requires InBounds(toks, st) && InBounds(other, st) && Window(toks, other, Term(toks, st))
    ensures Term(other, st) == Term(toks, st)
    decreases |toks| - st.pos, 2
  {
    var s0 := st.Emit(Commence("Term"));
    var r1 := Factor(toks, s0);
    FactorPrefix(toks, other, s0);
    if r1.Fail? { return; }
    TermTailPrefix(toks, other, r1.c);
  }

  lemma {:induction false} TermTailPrefix(toks: seq<Token>, other: seq<Token>, st: Cursor)
    requires InBounds(toks, st) && InBounds(other, st) && Window(toks, other, TermTail(toks, st))
    ensures TermTail(other, st) == TermTail(toks, st)
    decreases |toks| - st.pos, 1
  {
    assert toks[st.pos] == other[st.pos];
    if !IsMultiplicative(Look(toks, st)) { return; }
    var a := Accept(toks, st, Look(toks, st));
    AcceptPrefix(toks, other, st, Look(toks, st));
    var r2 := Term(toks, a.c);
    TermPrefix(toks, other, a.c);
    if r2.Fail? { return; }
    TermTailPrefix(toks, other, r2.c);
  }

  lemma {:induction false} FactorPrefix(toks: seq<Token>, other: seq<Token>, st: Cursor)
    requires InBounds(toks, st) && InBounds(other, st) && Window(toks, other, Factor(toks, st))
    ensures Factor(other, st) == Factor(toks, st)
    decreases |toks| - st.pos, 0
  {
    var s0 := st.Emit(Commence("Factor"));
    assert toks[st.pos] == other[st.pos];
    if Look(toks, s0) == Identifier || Look(toks, s0) == NumberConstant {
      AcceptPrefix(toks, other, s0, Look(toks, s0));
    } else if Look(toks, s0) == LeftParen {
      var a := Accept(toks, s0, LeftParen);
      AcceptPrefix(toks, other, s0, LeftParen);
      var b := Expression(toks, a.c);
      ExpressionPrefix(toks, other, a.c);
      if b.Fail? { return; }
      AcceptPrefix(toks, other, b.c, RightParen);
    }
  }

  /** The analyser's entry point looks no further than the 'end' that closes
      an accepted program, or than the token a rejected one is reported at:
      any input that agrees up to there gets the same outcome and the same
      events. */
  lemma ParseLooksNoFurther(toks: seq<Token>, other: seq<Token>)
    requires WellFormed(toks) && WellFormed(other)
    requires var r := Parse(toks); Agree(toks, other, if r.Ok? then r.c.pos else r.c.pos + 1)
    ensures Parse(other) == Parse(toks)
  {
    StatementPartPrefix(toks, other, Cursor(0, []));
  }

  /** An accepted program ends at its closing 'end': the analyser never
      checks that end-of-input comes next, so whatever follows the 'end'
      leaves the outcome and the events unchanged. */
  lemma ParseIgnoresRest(toks: seq<Token>, rest: seq<Token>)
    requires WellFormed(toks) && WellFormed(rest) && Parse(toks).Ok?
    ensures Parse(toks[..Parse(toks).c.pos] + rest) == Parse(toks)
  {
    var p := Parse(toks).c.pos;
    var other := toks[..p] + rest;
    assert Agree(toks, other, p);
    ParseLooksNoFurther(toks, other);
  }

  /** `begin end x` is accepted, with the lookahead left on `x`. */
  lemma TrailingTokenAccepted()
    ensures var toks := [Token(Begin, "begin", 1), Token(End, "end", 1), Token(Identifier, "x", 1), Token(Eof, "", 1)];
      var r := Parse(toks);
      r.Ok? && r.c.pos == 2 && Look(toks, r.c) == Identifier
  {
    var toks := [Token(Begin, "begin", 1), Token(End, "end", 1), Token(Identifier, "x", 1), Token(Eof, "", 1)];
    var s1 := Cursor(1, [Commence("StatementPart"), Terminal(toks[0])]);
    assert StatementList(toks, s1) == Ok(s1);
  }
}
