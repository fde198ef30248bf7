// What the tree sink receives. Every production, started with the sink
// holding exactly the tokens consumed so far, ends (normally or not) with the
// sink holding exactly the tokens consumed by then: nothing skipped, nothing
// duplicated, nothing taken back, and no end-of-input token among them.
// A failure is reported at a token the grammar does not allow there.
module SinkLemmas {
  import opened Tokens
  import opened Trace
  import opened Outcomes
  import opened Productions

  lemma EmitAdvances(toks: seq<Token>, c: Cursor, e: Event)
    requires Synced(toks, c) && !e.Terminal?
    ensures Advances(toks, c, Ok(c.Emit(e)))
  {
    TerminalsSnoc(c.trace, e);
  }

  /** acceptTerminal sends the sink the one token it consumes, or fails at
      a token of another kind than the expected one. */
  lemma AcceptAdvances(toks: seq<Token>, st: Cursor, k: Kind)
    requires Synced(toks, st) && k != Eof
    ensures Advances(toks, st, Accept(toks, st, k))
  {
    if Look(toks, st) == k {
      assert toks[..st.pos + 1] == toks[..st.pos] + [toks[st.pos]];
      TerminalsSnoc(st.trace, Terminal(toks[st.pos]));
    }
  }

  lemma Chain(toks: seq<Token>, a: Cursor, b: Cursor, r: Outcome)
    requires Advances(toks, a, Ok(b)) && Advances(toks, b, r)
    ensures Advances(toks, a, r)
  {
  }

  /** Finishing a nonterminal sends no terminal. */
  lemma Closes(toks: seq<Token>, st: Cursor, c: Cursor, name: string)
    requires Advances(toks, st, Ok(c))
    ensures Advances(toks, st, Ok(c.Emit(Finish(name))))
  {
    EmitAdvances(toks, c, Finish(name));
    Chain(toks, st, c, Ok(c.Emit(Finish(name))));
  }

  lemma {:induction false} StatementPartAdvances(toks: seq<Token>, st: Cursor)
    requires Synced(toks, st)
    ensures Advances(toks, st, StatementPart(toks, st))
  {
    var s0 := st.Emit(Commence("StatementPart"));
    EmitAdvances(toks, st, Commence("StatementPart"));
    var r1 := Accept(toks, s0, Begin);
    AcceptAdvances(toks, s0, Begin); Chain(toks, st, s0, r1);
    if r1.Fail? { return; }
    var r2 := StatementList(toks, r1.c);
    StatementListAdvances(toks, r1.c); Chain(toks, st, r1.c, r2);
    if r2.Fail? { return; }
    var r3 := Accept(toks, r2.c, End);
    AcceptAdvances(toks, r2.c, End); Chain(toks, st, r2.c, r3);
    if r3.Fail? { return; }
    Closes(toks, st, r3.c, "StatementPart");
  }

  lemma {:induction false} StatementListAdvances(toks: seq<Token>, st: Cursor)
    requires Synced(toks, st)
    ensures Advances(toks, st, StatementList(toks, st))
    decreases |toks| - st.pos, 2
  {
    if EndsList(Look(toks, st)) { return; }
    var s0 := st.Emit(Commence("StatementList"));
    EmitAdvances(toks, st, Commence("StatementList"));
    var r1 := Statement(toks, s0);
    StatementAdvances(toks, s0); Chain(toks, st, s0, r1);
    if r1.Fail? { return; }
    var s1 := r1.c;
    var r2 := Separator(toks, s1);
    SeparatorAdvances(toks, s1); Chain(toks, st, s1, r2);
    if r2.Fail? { return; }
    var s3 := r2.c.Emit(Finish("StatementList"));
    Closes(toks, st, r2.c, "StatementList");
    StatementListAdvances(toks, s3); Chain(toks, st, s3, StatementList(toks, s3));
  }

  lemma {:induction false} SeparatorAdvances(toks: seq<Token>, st: Cursor)
    requires Synced(toks, st)
    ensures Advances(toks, st, Separator(toks, st))
    decreases |toks| - st.pos, 0
  {
    if Look(toks, st) == Semicolon {
      var a := Accept(toks, st, Semicolon);
      AcceptAdvances(toks, st, Semicolon);
      if a.Fail? { return; }
      StatementListAdvances(toks, a.c); Chain(toks, st, a.c, StatementList(toks, a.c));
    }
  }

  lemma {:induction false} StatementAdvances(toks: seq<Token>, st: Cursor)
    requires Synced(toks, st)
    ensures Advances(toks, st, Statement(toks, st))
    decreases |toks| - st.pos, 1
  {
    var s0 := st.Emit(Commence("Statement"));
    EmitAdvances(toks, st, Commence("Statement"));
    var k := Look(toks, s0);
    var r1: Outcome;
    if k == Call {
      r1 := ProcedureStatement(toks, s0); ProcedureStatementAdvances(toks, s0);
    } else if k == Identifier {
      r1 := AssignmentStatement(toks, s0); AssignmentStatementAdvances(toks, s0);
    } else if k == While {
      r1 := WhileStatement(toks, s0); WhileStatementAdvances(toks, s0);
    } else if k == For {
      r1 := ForStatement(toks, s0); ForStatementAdvances(toks, s0);
    } else if k == If {
      r1 := IfStatement(toks, s0); IfStatementAdvances(toks, s0);
    } else if k == Do {
      r1 := UntilStatement(toks, s0); UntilStatementAdvances(toks, s0);
    } else if k == Else {
      r1 := Fail(s0, ElseWithoutIf);
    } else {
      r1 := Fail(s0, UnknownStatement);
    }
    Chain(toks, st, s0, r1);
    if r1.Fail? { return; }
    Closes(toks, st, r1.c, "Statement");
  }

  lemma {:induction false} AssignmentStatementAdvances(toks: seq<Token>, st: Cursor)
    requires Synced(toks, st)
    ensures Advances(toks, st, AssignmentStatement(toks, st))
    decreases |toks| - st.pos, 0
  {
    var s0 := st.Emit(Commence("AssignmentStatement"));
    EmitAdvances(toks, st, Commence("AssignmentStatement"));
    var r1 := Accept(toks, s0, Identifier);
    AcceptAdvances(toks, s0, Identifier); Chain(toks, st, s0, r1);
    if r1.Fail? { return; }
    var r2 := Accept(toks, r1.c, Becomes);
    AcceptAdvances(toks, r1.c, Becomes); Chain(toks, st, r1.c, r2);
    if r2.Fail? { return; }
    var r3: Outcome;
    if Look(toks, r2.c) == StringConstant {
      r3 := Accept(toks, r2.c, StringConstant); AcceptAdvances(toks, r2.c, StringConstant);
    } else {
      r3 := Expression(toks, r2.c); ExpressionAdvances(toks, r2.c);
    }
    Chain(toks, st, r2.c, r3);
    if r3.Fail? { return; }
    Closes(toks, st, r3.c, "AssignmentStatement");
  }

  lemma {:induction false} IfStatementAdvances(toks: seq<Token>, st: Cursor)
    requires Synced(toks, st)
    ensures Advances(toks, st, IfStatement(toks, st))
    decreases |toks| - st.pos, 0
  {
    var s0 := st.Emit(Commence("IfStatement"));
    EmitAdvances(toks, st, Commence("IfStatement"));
    var r1 := Accept(toks, s0, If);
    AcceptAdvances(toks, s0, If); Chain(toks, st, s0, r1);
    if r1.Fail? { return; }
    var r2 := Condition(toks, r1.c);
    ConditionAdvances(toks, r1.c); Chain(toks, st, r1.c, r2);
    if r2.Fail? { return; }
    var r3 := Accept(toks, r2.c, Then);
    AcceptAdvances(toks, r2.c, Then); Chain(toks, st, r2.c, r3);
    if r3.Fail? { return; }
    var r4 := StatementList(toks, r3.c);
    StatementListAdvances(toks, r3.c); Chain(toks, st, r3.c, r4);
    if r4.Fail? { return; }
    var r5 := ElsePart(toks, r4.c);
    ElsePartAdvances(toks, r4.c); Chain(toks, st, r4.c, r5);
    if r5.Fail? { return; }
    var r6 := Accept(toks, r5.c, End);
    AcceptAdvances(toks, r5.c, End); Chain(toks, st, r5.c, r6);
    if r6.Fail? { return; }
    var r7 := Accept(toks, r6.c, If);
    AcceptAdvances(toks, r6.c, If); Chain(toks, st, r6.c, r7);
    if r7.Fail? { return; }
    Closes(toks, st, r7.c, "IfStatement");
  }

  lemma {:induction false} ElsePartAdvances(toks: seq<Token>, st: Cursor)
    requires Synced(toks, st)
    ensures Advances(toks, st, ElsePart(toks, st))
    decreases |toks| - st.pos, 0
  {
    if Look(toks, st) == Else {
      var a := Accept(toks, st, Else);
      AcceptAdvances(toks, st, Else);
      if a.Fail? { return; }
      StatementListAdvances(toks, a.c); Chain(toks, st, a.c, StatementList(toks, a.c));
    }
  }

  lemma {:induction false} WhileStatementAdvances(toks: seq<Token>, st: Cursor)
    requires Synced(toks, st)
    ensures Advances(toks, st, WhileStatement(toks, st))
    decreases |toks| - st.pos, 0
  {
    var s0 := st.Emit(Commence("WhileStatement"));
    EmitAdvances(toks, st, Commence("WhileStatement"));
    var r1 := Accept(toks, s0, While);
    AcceptAdvances(toks, s0, While); Chain(toks, st, s0, r1);
    if r1.Fail? { return; }
    var r2 := Condition(toks, r1.c);
    ConditionAdvances(toks, r1.c); Chain(toks, st, r1.c, r2);
    if r2.Fail? { return; }
    var r3 := Accept(toks, r2.c, Loop);
    AcceptAdvances(toks, r2.c, Loop); Chain(toks, st, r2.c, r3);
    if r3.Fail? { return; }
    var r4 := StatementList(toks, r3.c);
    StatementListAdvances(toks, r3.c); Chain(toks, st, r3.c, r4);
    if r4.Fail? { return; }
    var r5 := Accept(toks, r4.c, End);
    AcceptAdvances(toks, r4.c, End); Chain(toks, st, r4.c, r5);
    if r5.Fail? { return; }
    var r6 := Accept(toks, r5.c, Loop);
    AcceptAdvances(toks, r5.c, Loop); Chain(toks, st, r5.c, r6);
    if r6.Fail? { return; }
    Closes(toks, st, r6.c, "WhileStatement");
  }

  lemma {:induction false} ProcedureStatementAdvances(toks: seq<Token>, st: Cursor)
    requires Synced(toks, st)
    ensures Advances(toks, st, ProcedureStatement(toks, st))
    decreases |toks| - st.pos, 0
  {
    var s0 := st.Emit(Commence("ProcedureStatement"));
    EmitAdvances(toks, st, Commence("ProcedureStatement"));
    var r1 := Accept(toks, s0, Call);
    AcceptAdvances(toks, s0, Call); Chain(toks, st, s0, r1);
    if r1.Fail? { return; }
    var r2 := Accept(toks, r1.c, Identifier);
    AcceptAdvances(toks, r1.c, Identifier); Chain(toks, st, r1.c, r2);
    if r2.Fail? { return; }
    var r3 := ArgumentList(toks, r2.c);
    ArgumentListAdvances(toks, r2.c); Chain(toks, st, r2.c, r3);
    if r3.Fail? { return; }
    Closes(toks, st, r3.c, "ProcedureStatement");
  }

  lemma {:induction false} UntilStatementAdvances(toks: seq<Token>, st: Cursor)
    requires Synced(toks, st)
    ensures Advances(toks, st, UntilStatement(toks, st))
    decreases |toks| - st.pos, 0
  {
    var s0 := st.Emit(Commence("DoUntilStatement"));
    EmitAdvances(toks, st, Commence("DoUntilStatement"));
    var r1 := Accept(toks, s0, Do);
    AcceptAdvances(toks, s0, Do); Chain(toks, st, s0, r1);
    if r1.Fail? { return; }
    var r2 := StatementList(toks, r1.c);
    StatementListAdvances(toks, r1.c); Chain(toks, st, r1.c, r2);
    if r2.Fail? { return; }
    var r3 := Accept(toks, r2.c, Until);
    AcceptAdvances(toks, r2.c, Until); Chain(toks, st, r2.c, r3);
    if r3.Fail? { return; }
    var r4 := Condition(toks, r3.c);
    ConditionAdvances(toks, r3.c); Chain(toks, st, r3.c, r4);
    if r4.Fail? { return; }
    Closes(toks, st, r4.c, "DoUntilStatement");
  }

  lemma {:induction false} ForStatementAdvances(toks: seq<Token>, st: Cursor)
    requires Synced(toks, st)
    ensures Advances(toks, st, ForStatement(toks, st))
    decreases |toks| - st.pos, 0
  {
    var s0 := st.Emit(Commence("ForStatement"));
    EmitAdvances(toks, st, Commence("ForStatement"));
    var r1 := Accept(toks, s0, For);
    AcceptAdvances(toks, s0, For); Chain(toks, st, s0, r1);
    if r1.Fail? { return; }
    var r2 := ForControl(toks, r1.c);
    ForControlAdvances(toks, r1.c); Chain(toks, st, r1.c, r2);
    if r2.Fail? { return; }
    var r3 := Accept(toks, r2.c, Do);
    AcceptAdvances(toks, r2.c, Do); Chain(toks, st, r2.c, r3);
    if r3.Fail? { return; }
    var r4 := StatementList(toks, r3.c);
    StatementListAdvances(toks, r3.c); Chain(toks, st, r3.c, r4);
    if r4.Fail? { return; }
    var r5 := Accept(toks, r4.c, End);
    AcceptAdvances(toks, r4.c, End); Chain(toks, st, r4.c, r5);
    if r5.Fail? { return; }
    var r6 := Accept(toks, r5.c, Loop);
    AcceptAdvances(toks, r5.c, Loop); Chain(toks, st, r5.c, r6);
    if r6.Fail? { return; }
    Closes(toks, st, r6.c, "ForStatement");
  }

  lemma {:induction false} ForControlAdvances(toks: seq<Token>, st: Cursor)
    requires Synced(toks, st)
    ensures Advances(toks, st, ForControl(toks, st))
    decreases |toks| - st.pos, 0
  {
    var r1 := Accept(toks, st, LeftParen);
    AcceptAdvances(toks, st, LeftParen);
    if r1.Fail? { return; }
    var r2 := ForAssignment(toks, r1.c);
    ForAssignmentAdvances(toks, r1.c); Chain(toks, st, r1.c, r2);
    if r2.Fail? { return; }
    var r3 := Accept(toks, r2.c, Semicolon);
    AcceptAdvances(toks, r2.c, Semicolon); Chain(toks, st, r2.c, r3);
    if r3.Fail? { return; }
    var r4 := Condition(toks, r3.c);
    ConditionAdvances(toks, r3.c); Chain(toks, st, r3.c, r4);
    if r4.Fail? { return; }
    var r5 := Accept(toks, r4.c, Semicolon);
    AcceptAdvances(toks, r4.c, Semicolon); Chain(toks, st, r4.c, r5);
    if r5.Fail? { return; }
    var r6 := ForAssignment(toks, r5.c);
    ForAssignmentAdvances(toks, r5.c); Chain(toks, st, r5.c, r6);
    if r6.Fail? { return; }
    AcceptAdvances(toks, r6.c, RightParen); Chain(toks, st, r6.c, Accept(toks, r6.c, RightParen));
  }

  lemma {:induction false} ForAssignmentAdvances(toks: seq<Token>, st: Cursor)
    requires Synced(toks, st)
    ensures Advances(toks, st, ForAssignment(toks, st))
    decreases |toks| - st.pos, 0
  {
    var r1 := Accept(toks, st, Identifier);
    AcceptAdvances(toks, st, Identifier);
    if r1.Fail? { return; }
    var r2 := Accept(toks, r1.c, Becomes);
    AcceptAdvances(toks, r1.c, Becomes); Chain(toks, st, r1.c, r2);
    if r2.Fail? { return; }
    ExpressionAdvances(toks, r2.c); Chain(toks, st, r2.c, Expression(toks, r2.c));
  }

  lemma {:induction false} ArgumentListAdvances(toks: seq<Token>, st: Cursor)
    requires Synced(toks, st)
    ensures Advances(toks, st, ArgumentList(toks, st))
  {
    var r1 := Accept(toks, st, LeftParen);
    AcceptAdvances(toks, st, LeftParen);
    if r1.Fail? { return; }
    var s2 := r1.c.Emit(Commence("ArgumentList"));
    EmitAdvances(toks, r1.c, Commence("ArgumentList")); Chain(toks, st, r1.c, Ok(s2));
    if Look(toks, s2) == RightParen {
      AcceptAdvances(toks, s2, RightParen); Chain(toks, st, s2, Accept(toks, s2, RightParen));
      return;
    }
    var r3: Outcome;
    if Look(toks, s2) == Identifier {
      var a := Accept(toks, s2, Identifier);
      AcceptAdvances(toks, s2, Identifier); Chain(toks, st, s2, a);
      r3 := ArgumentTail(toks, a.c);
      ArgumentTailAdvances(toks, a.c); Chain(toks, st, a.c, r3);
    } else {
      r3 := Fail(s2, MissingArgument);
    }
    if r3.Fail? { return; }
    var s4 := r3.c.Emit(Finish("ArgumentList"));
    Closes(toks, st, r3.c, "ArgumentList");
    AcceptAdvances(toks, s4, RightParen); Chain(toks, st, s4, Accept(toks, s4, RightParen));
  }

  lemma {:induction false} ArgumentTailAdvances(toks: seq<Token>, st: Cursor)
    requires Synced(toks, st)
    ensures Advances(toks, st, ArgumentTail(toks, st))
    decreases |toks| - st.pos
  {
    if Look(toks, st) != Comma { return; }
    var a := Accept(toks, st, Comma);
    AcceptAdvances(toks, st, Comma);
    var r2: Outcome;
    if Look(toks, a.c) == Identifier {
      r2 := Accept(toks, a.c, Identifier); AcceptAdvances(toks, a.c, Identifier);
    } else {
      r2 := Fail(a.c, MissingArgumentAfterComma);
    }
    Chain(toks, st, a.c, r2);
    if r2.Fail? { return; }
    ArgumentTailAdvances(toks, r2.c); Chain(toks, st, r2.c, ArgumentTail(toks, r2.c));
  }

  lemma {:induction false} ConditionAdvances(toks: seq<Token>, st: Cursor)
    requires Synced(toks, st)
    ensures Advances(toks, st, Condition(toks, st))
  {
    var s0 := st.Emit(Commence("Condition"));
    EmitAdvances(toks, st, Commence("Condition"));
    var r1 := Accept(toks, s0, Identifier);
    AcceptAdvances(toks, s0, Identifier); Chain(toks, st, s0, r1);
    if r1.Fail? { return; }
    var r2 := ConditionalOperator(toks, r1.c);
    ConditionalOperatorAdvances(toks, r1.c); Chain(toks, st, r1.c, r2);
    if r2.Fail? { return; }
    var r3 := Accept(toks, r2.c, NumberConstant);
    AcceptAdvances(toks, r2.c, NumberConstant); Chain(toks, st, r2.c, r3);
    if r3.Fail? { return; }
    Closes(toks, st, r3.c, "Condition");
  }

  lemma {:induction false} ConditionalOperatorAdvances(toks: seq<Token>, st: Cursor)
    requires Synced(toks, st)
    ensures Advances(toks, st, ConditionalOperator(toks, st))
  {
    var s0 := st.Emit(Commence("ConditionalOperator"));
    EmitAdvances(toks, st, Commence("ConditionalOperator"));
    if IsRelational(Look(toks, s0)) {
      var r1 := Accept(toks, s0, Look(toks, s0));
      AcceptAdvances(toks, s0, Look(toks, s0)); Chain(toks, st, s0, r1);
      Closes(toks, st, r1.c, "ConditionalOperator");
    }
  }

  lemma {:induction false} ExpressionAdvances(toks: seq<Token>, st: Cursor)
    requires Synced(toks, st)
    ensures Advances(toks, st, Expression(toks, st))
    decreases |toks| - st.pos, 4
  {
    var s0 := st.Emit(Commence("Expression"));
    EmitAdvances(toks, st, Commence("Expression"));
    var r1 := Term(toks, s0);
    TermAdvances(toks, s0); Chain(toks, st, s0, r1);
    if r1.Fail? { return; }
    var r2 := ExpressionTail(toks, r1.c);
    ExpressionTailAdvances(toks, r1.c); Chain(toks, st, r1.c, r2);
    if r2.Fail? { return; }
    Closes(toks, st, r2.c, "Expression");
  }

  lemma {:induction false} ExpressionTailAdvances(toks: seq<Token>, st: Cursor)
    requires Synced(toks, st)
    ensures Advances(toks, st, ExpressionTail(toks, st))
    decreases |toks| - st.pos, 3
  {
    if !IsAdditive(Look(toks, st)) { return; }
    var a := Accept(toks, st, Look(toks, st));
    AcceptAdvances(toks, st, Look(toks, st));
    var r2 := Expression(toks, a.c);
    ExpressionAdvances(toks, a.c); Chain(toks, st, a.c, r2);
    if r2.Fail? { return; }
    ExpressionTailAdvances(toks, r2.c); Chain(toks, st, r2.c, ExpressionTail(toks, r2.c));
  }

  lemma {:induction false} TermAdvances(toks: seq<Token>, st: Cursor)
    requires Synced(toks, st)
    ensures Advances(toks, st, Term(toks, st))
    decreases |toks| - st.pos, 2
  {
    var s0 := st.Emit(Commence("Term"));
    EmitAdvances(toks, st, Commence("Term"));
    var r1 := Factor(toks, s0);
    FactorAdvances(toks, s0); Chain(toks, st, s0, r1);
    if r1.Fail? { return; }
    var r2 := TermTail(toks, r1.c);
    TermTailAdvances(toks, r1.c); Chain(toks, st, r1.c, r2);
    if r2.Fail? { return; }
    Closes(toks, st, r2.c, "Term");
  }

  lemma {:induction false} TermTailAdvances(toks: seq<Token>, st: Cursor)
    requires Synced(toks, st)
    ensures Advances(toks, st, TermTail(toks, st))
    decreases |toks| - st.pos, 1
  {
    if !IsMultiplicative(Look(toks, st)) { return; }
    var a := Accept(toks, st, Look(toks, st));
    AcceptAdvances(toks, st, Look(toks, st));
    var r2 := Term(toks, a.c);
    TermAdvances(toks, a.c); Chain(toks, st, a.c, r2);
    if r2.Fail? { return; }
    TermTailAdvances(toks, r2.c); Chain(toks, st, r2.c, TermTail(toks, r2.c));
  }

  lemma {:induction false} FactorAdvances(toks: seq<Token>, st: Cursor)
    requires Synced(toks, st)
    ensures Advances(toks, st, Factor(toks, st))
    decreases |toks| - st.pos, 0
  {
    var s0 := st.Emit(Commence("Factor"));
    EmitAdvances(toks, st, Commence("Factor"));
    var r1: Outcome;
    if Look(toks, s0) == Identifier || Look(toks, s0) == NumberConstant {
      r1 := Accept(toks, s0, Look(toks, s0));
      AcceptAdvances(toks, s0, Look(toks, s0));
    } else if Look(toks, s0) == LeftParen {
      var a := Accept(toks, s0, LeftParen);
      AcceptAdvances(toks, s0, LeftParen);
      var b := Expression(toks, a.c);
      ExpressionAdvances(toks, a.c); Chain(toks, s0, a.c, b);
      if b.Fail? {
        r1 := b;
      } else {
        r1 := Accept(toks, b.c, RightParen);
        AcceptAdvances(toks, b.c, RightParen); Chain(toks, s0, b.c, r1);
      }
    } else {
      r1 := Fail(s0, MissingFactor);
    }
    Chain(toks, st, s0, r1);
    if r1.Fail? { return; }
    Closes(toks, st, r1.c, "Factor");
  }

  /** From the entry point, with an empty sink: the sink ends up holding
      exactly the tokens consumed, in order and none of them end-of-input,
      and a rejection is reported at a token that justifies it. */
  lemma ParseAdvances(toks: seq<Token>)
    requires WellFormed(toks)
    ensures var r := Parse(toks);
      Terminals(r.c.trace) == toks[..r.c.pos] && NoEof(Terminals(r.c.trace)) &&
      (r.Fail? ==> Justified(toks, r.c.pos, r.err))
  {
    assert Synced(toks, Cursor(0, []));
    StatementPartAdvances(toks, Cursor(0, []));
  }
}
