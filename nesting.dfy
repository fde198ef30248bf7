// How the events the analyser sends nest. The sink builds a tree, so every
// Commence must be closed by a later Finish of the same name, innermost
// first. `Open` replays a trace against a stack of open nonterminals. Every
// production that returns normally leaves that stack as it found it, with
// one exception: an empty argument list `( )` commences ArgumentList and
// never finishes it. The results for the statement productions therefore
// assume an input without `( )`, and `ProcedureStatementEmptyList` shows
// what happens with one.
module Nesting {
  import opened Tokens
  import opened Trace
  import opened Outcomes
  import opened Productions
  import opened ArgumentLemmas

  /** The open nonterminals after one more event: a Commence opens one, and
      a Finish must close the innermost open one, which must have its name. */
  function Step(open: seq<string>, e: Event): Option<seq<string>> {
    match e
    case Commence(n) => Some(open + [n])
    case Terminal(_) => Some(open)
    case Finish(n) =>
      if |open| > 0 && open[|open| - 1] == n then Some(open[..|open| - 1]) else None
  }

  /** The nonterminals a trace leaves open, innermost last; None once some
      Finish does not close the innermost open nonterminal. */
  function Open(es: seq<Event>): (r: Option<seq<string>>)
    ensures r.Some? ==> |r.value| == Depth(es)
  {
    if es == [] then Some([])
    else
      match Open(es[..|es| - 1])
      case None => None
      case Some(open) => Step(open, es[|es| - 1])
  }

  lemma OpenSnoc(es: seq<Event>, e: Event)
    ensures Open(es + [e]) == (match Open(es) case None => None case Some(open) => Step(open, e))
  {
    assert (es + [e])[..|es|] == es;
  }

  /** A production that returns normally leaves open exactly what was open
      when it started. From an empty trace this says that the events it
      sends form a well-nested segment. */
  predicate Nests(st: Cursor, r: Outcome) {
    r.Ok? && Open(st.trace).Some? ==> Open(r.c.trace) == Open(st.trace)
  }

  /** The input holds no '(' directly followed by ')'. */
  predicate NoEmptyList(toks: seq<Token>) {
    forall i :: 0 <= i < |toks| - 1 && toks[i].kind == LeftParen ==> toks[i + 1].kind != RightParen
  }

  lemma Chain(a: Cursor, b: Cursor, r: Outcome)
    requires Nests(a, Ok(b)) && Nests(b, r)
    ensures Nests(a, r)
  {
  }

  /** Commencing, a balanced body and the matching Finish leave the open
      nonterminals as they were. */
  lemma Leave(st: Cursor, c: Cursor, name: string)
    requires Nests(st.Emit(Commence(name)), Ok(c))
    ensures Nests(st, Ok(c.Emit(Finish(name))))
  {
    OpenSnoc(st.trace, Commence(name));
    OpenSnoc(c.trace, Finish(name));
    if Open(st.trace).Some? {
      var open := Open(st.trace).value;
      assert (open + [name])[..|open|] == open;
    }
  }

  lemma AcceptNests(toks: seq<Token>, st: Cursor, k: Kind)
    requires InBounds(toks, st) && k != Eof
    ensures Nests(st, Accept(toks, st, k))
  {
    if Look(toks, st) == k {
      OpenSnoc(st.trace, Terminal(toks[st.pos]));
    }
  }

  lemma {:induction false} StatementPartNests(toks: seq<Token>, st: Cursor)
    requires InBounds(toks, st) && NoEmptyList(toks)
    ensures Nests(st, StatementPart(toks, st))
  {
    var s0 := st.Emit(Commence("StatementPart"));
    var r1 := Accept(toks, s0, Begin);
    AcceptNests(toks, s0, Begin);
    if r1.Fail? { return; }
    var r2 := StatementList(toks, r1.c);
    StatementListNests(toks, r1.c); Chain(s0, r1.c, r2);
    if r2.Fail? { return; }
    var r3 := Accept(toks, r2.c, End);
    AcceptNests(toks, r2.c, End); Chain(s0, r2.c, r3);
    if r3.Fail? { return; }
    Leave(st, r3.c, "StatementPart");
  }

  lemma {:induction false} StatementListNests(toks: seq<Token>, st: Cursor)
    requires InBounds(toks, st) && NoEmptyList(toks)
    ensures Nests(st, StatementList(toks, st))
    decreases |toks| - st.pos, 2
  {
    if EndsList(Look(toks, st)) { return; }
    var s0 := st.Emit(Commence("StatementList"));
    var r1 := Statement(toks, s0);
    StatementNests(toks, s0);
    if r1.Fail? { return; }
    var r2 := Separator(toks, r1.c);
    SeparatorNests(toks, r1.c); Chain(s0, r1.c, r2);
    if r2.Fail? { return; }
    var s3 := r2.c.Emit(Finish("StatementList"));
    Leave(st, r2.c, "StatementList");
    StatementListNests(toks, s3); Chain(st, s3, StatementList(toks, s3));
  }

  lemma {:induction false} SeparatorNests(toks: seq<Token>, st: Cursor)
    requires InBounds(toks, st) && NoEmptyList(toks)
    ensures Nests(st, Separator(toks, st))
    decreases |toks| - st.pos, 0
  {
    if Look(toks, st) == Semicolon {
      var a := Accept(toks, st, Semicolon);
      AcceptNests(toks, st, Semicolon);
      StatementListNests(toks, a.c); Chain(st, a.c, StatementList(toks, a.c));
    }
  }

  lemma {:induction false} StatementNests(toks: seq<Token>, st: Cursor)
    requires InBounds(toks, st) && NoEmptyList(toks)
    ensures Nests(st, Statement(toks, st))
    decreases |toks| - st.pos, 1
  {
    var s0 := st.Emit(Commence("Statement"));
    var k := Look(toks, s0);
    var r1: Outcome;
    if k == Call {
      r1 := ProcedureStatement(toks, s0); ProcedureStatementNests(toks, s0);
    } else if k == Identifier {
      r1 := AssignmentStatement(toks, s0); AssignmentStatementNests(toks, s0);
    } else if k == While {
      r1 := WhileStatement(toks, s0); WhileStatementNests(toks, s0);
    } else if k == For {
      r1 := ForStatement(toks, s0); ForStatementNests(toks, s0);
    } else if k == If {
      r1 := IfStatement(toks, s0); IfStatementNests(toks, s0);
    } else if k == Do {
      r1 := UntilStatement(toks, s0); UntilStatementNests(toks, s0);
    } else if k == Else {
      r1 := Fail(s0, ElseWithoutIf);
    } else {
      r1 := Fail(s0, UnknownStatement);
    }
    if r1.Fail? { return; }
    Leave(st, r1.c, "Statement");
  }

  lemma {:induction false} AssignmentStatementNests(toks: seq<Token>, st: Cursor)
    requires InBounds(toks, st)
    ensures Nests(st, AssignmentStatement(toks, st))
    decreases |toks| - st.pos, 0
  {
    var s0 := st.Emit(Commence("AssignmentStatement"));
    var r1 := Accept(toks, s0, Identifier);
    AcceptNests(toks, s0, Identifier);
    if r1.Fail? { return; }
    var r2 := Accept(toks, r1.c, Becomes);
    AcceptNests(toks, r1.c, Becomes); Chain(s0, r1.c, r2);
    if r2.Fail? { return; }
    var r3: Outcome;
    if Look(toks, r2.c) == StringConstant {
      r3 := Accept(toks, r2.c, StringConstant); AcceptNests(toks, r2.c, StringConstant);
    } else {
      r3 := Expression(toks, r2.c); ExpressionNests(toks, r2.c);
    }
    Chain(s0, r2.c, r3);
    if r3.Fail? { return; }
    Leave(st, r3.c, "AssignmentStatement");
  }

  lemma {:induction false} IfStatementNests(toks: seq<Token>, st: Cursor)
    requires InBounds(toks, st) && NoEmptyList(toks)
    ensures Nests(st, IfStatement(toks, st))
    decreases |toks| - st.pos, 0
  {
    var s0 := st.Emit(Commence("IfStatement"));
    var r1 := Accept(toks, s0, If);
    AcceptNests(toks, s0, If);
    if r1.Fail? { return; }
    var r2 := Condition(toks, r1.c);
    ConditionNests(toks, r1.c); Chain(s0, r1.c, r2);
    if r2.Fail? { return; }
    var r3 := Accept(toks, r2.c, Then);
    AcceptNests(toks, r2.c, Then); Chain(s0, r2.c, r3);
    if r3.Fail? { return; }
    var r4 := StatementList(toks, r3.c);
    StatementListNests(toks, r3.c); Chain(s0, r3.c, r4);
    if r4.Fail? { return; }
    var r5 := ElsePart(toks, r4.c);
    ElsePartNests(toks, r4.c); Chain(s0, r4.c, r5);
    if r5.Fail? { return; }
    var r6 := Accept(toks, r5.c, End);
    AcceptNests(toks, r5.c, End); Chain(s0, r5.c, r6);
    if r6.Fail? { return; }
    var r7 := Accept(toks, r6.c, If);
    AcceptNests(toks, r6.c, If); Chain(s0, r6.c, r7);
    if r7.Fail? { return; }
    Leave(st, r7.c, "IfStatement");
  }

  lemma {:induction false} ElsePartNests(toks: seq<Token>, st: Cursor)
    requires InBounds(toks, st) && NoEmptyList(toks)
    ensures Nests(st, ElsePart(toks, st))
    decreases |toks| - st.pos, 0
  {
    if Look(toks, st) == Else {
      var a := Accept(toks, st, Else);
      AcceptNests(toks, st, Else);
      StatementListNests(toks, a.c); Chain(st, a.c, StatementList(toks, a.c));
    }
  }

  lemma {:induction false} WhileStatementNests(toks: seq<Token>, st: Cursor)
    requires InBounds(toks, st) && NoEmptyList(toks)
    ensures Nests(st, WhileStatement(toks, st))
    decreases |toks| - st.pos, 0
  {
    var s0 := st.Emit(Commence("WhileStatement"));
    var r1 := Accept(toks, s0, While);
    AcceptNests(toks, s0, While);
    if r1.Fail? { return; }
    var r2 := Condition(toks, r1.c);
    ConditionNests(toks, r1.c); Chain(s0, r1.c, r2);
    if r2.Fail? { return; }
    var r3 := Accept(toks, r2.c, Loop);
    AcceptNests(toks, r2.c, Loop); Chain(s0, r2.c, r3);
    if r3.Fail? { return; }
    var r4 := StatementList(toks, r3.c);
    StatementListNests(toks, r3.c); Chain(s0, r3.c, r4);
    if r4.Fail? { return; }
    var r5 := Accept(toks, r4.c, End);
    AcceptNests(toks, r4.c, End); Chain(s0, r4.c, r5);
    if r5.Fail? { return; }
    var r6 := Accept(toks, r5.c, Loop);
    AcceptNests(toks, r5.c, Loop); Chain(s0, r5.c, r6);
    if r6.Fail? { return; }
    Leave(st, r6.c, "WhileStatement");
  }

  lemma {:induction false} ProcedureStatementNests(toks: seq<Token>, st: Cursor)
    requires InBounds(toks, st) && NoEmptyList(toks)
    ensures Nests(st, ProcedureStatement(toks, st))
    decreases |toks| - st.pos, 0
  {
    var s0 := st.Emit(Commence("ProcedureStatement"));
    var r1 := Accept(toks, s0, Call);
    AcceptNests(toks, s0, Call);
    if r1.Fail? { return; }
    var r2 := Accept(toks, r1.c, Identifier);
    AcceptNests(toks, r1.c, Identifier); Chain(s0, r1.c, r2);
    if r2.Fail? { return; }
    var r3 := ArgumentList(toks, r2.c);
    ArgumentListNests(toks, r2.c);
    if r3.Fail? { return; }
    assert toks[r2.c.pos + 1].kind != RightParen;
    Chain(s0, r2.c, r3);
    Leave(st, r3.c, "ProcedureStatement");
  }

  /** With `( )` the ArgumentList left open is still the innermost open
      nonterminal when ProcedureStatement is finished, so from there on the
      sink is sent a trace that no longer nests. */
  lemma ProcedureStatementEmptyList(toks: seq<Token>, st: Cursor)
    requires InBounds(toks, st) && st.pos + 3 < |toks|
    requires toks[st.pos].kind == Call && toks[st.pos + 1].kind == Identifier
    requires toks[st.pos + 2].kind == LeftParen && toks[st.pos + 3].kind == RightParen
    requires Open(st.trace).Some?
    ensures var r := ProcedureStatement(toks, st); r.Ok? && Open(r.c.trace).None?
  {
    var s0 := st.Emit(Commence("ProcedureStatement"));
    var s2 := Cursor(st.pos + 2, s0.trace + [Terminal(toks[st.pos]), Terminal(toks[st.pos + 1])]);
    assert Accept(toks, s0, Call) == Ok(Cursor(st.pos + 1, s0.trace + [Terminal(toks[st.pos])]));
    var r3 := ArgumentList(toks, s2);
    ArgumentListNests(toks, s2);
    OpenSnoc(st.trace, Commence("ProcedureStatement"));
    OpenSnoc(s0.trace, Terminal(toks[st.pos]));
    OpenSnoc(s0.trace + [Terminal(toks[st.pos])], Terminal(toks[st.pos + 1]));
    assert s0.trace + [Terminal(toks[st.pos])] + [Terminal(toks[st.pos + 1])] == s2.trace;
    assert ProcedureStatement(toks, st) == Ok(r3.c.Emit(Finish("ProcedureStatement")));
    OpenSnoc(r3.c.trace, Finish("ProcedureStatement"));
  }

  lemma {:induction false} UntilStatementNests(toks: seq<Token>, st: Cursor)
    requires InBounds(toks, st) && NoEmptyList(toks)
    ensures Nests(st, UntilStatement(toks, st))
    decreases |toks| - st.pos, 0
  {
    var s0 := st.Emit(Commence("DoUntilStatement"));
    var r1 := Accept(toks, s0, Do);
    AcceptNests(toks, s0, Do);
    if r1.Fail? { return; }
    var r2 := StatementList(toks, r1.c);
    StatementListNests(toks, r1.c); Chain(s0, r1.c, r2);
    if r2.Fail? { return; }
    var r3 := Accept(toks, r2.c, Until);
    AcceptNests(toks, r2.c, Until); Chain(s0, r2.c, r3);
    if r3.Fail? { return; }
    var r4 := Condition(toks, r3.c);
    ConditionNests(toks, r3.c); Chain(s0, r3.c, r4);
    if r4.Fail? { return; }
    Leave(st, r4.c, "DoUntilStatement");
  }

  lemma {:induction false} ForStatementNests(toks: seq<Token>, st: Cursor)
    requires InBounds(toks, st) && NoEmptyList(toks)
    ensures Nests(st, ForStatement(toks, st))
    decreases |toks| - st.pos, 0
  {
    var s0 := st.Emit(Commence("ForStatement"));
    var r1 := Accept(toks, s0, For);
    AcceptNests(toks, s0, For);
    if r1.Fail? { return; }
    var r2 := ForControl(toks, r1.c);
    ForControlNests(toks, r1.c); Chain(s0, r1.c, r2);
    if r2.Fail? { return; }
    var r3 := Accept(toks, r2.c, Do);
    AcceptNests(toks, r2.c, Do); Chain(s0, r2.c, r3);
    if r3.Fail? { return; }
    var r4 := StatementList(toks, r3.c);
    StatementListNests(toks, r3.c); Chain(s0, r3.c, r4);
    if r4.Fail? { return; }
    var r5 := Accept(toks, r4.c, End);
    AcceptNests(toks, r4.c, End); Chain(s0, r4.c, r5);
    if r5.Fail? { return; }
    var r6 := Accept(toks, r5.c, Loop);
    AcceptNests(toks, r5.c, Loop); Chain(s0, r5.c, r6);
    if r6.Fail? { return; }
    Leave(st, r6.c, "ForStatement");
  }

  lemma {:induction false} ForControlNests(toks: seq<Token>, st: Cursor)
    requires InBounds(toks, st)
    ensures Nests(st, ForControl(toks, st))
  {
    var r1 := Accept(toks, st, LeftParen);
    AcceptNests(toks, st, LeftParen);
    if r1.Fail? { return; }
    var r2 := ForAssignment(toks, r1.c);
    ForAssignmentNests(toks, r1.c); Chain(st, r1.c, r2);
    if r2.Fail? { return; }
    var r3 := Accept(toks, r2.c, Semicolon);
    AcceptNests(toks, r2.c, Semicolon); Chain(st, r2.c, r3);
    if r3.Fail? { return; }
    var r4 := Condition(toks, r3.c);
    ConditionNests(toks, r3.c); Chain(st, r3.c, r4);
    if r4.Fail? { return; }
    var r5 := Accept(toks, r4.c, Semicolon);
    AcceptNests(toks, r4.c, Semicolon); Chain(st, r4.c, r5);
    if r5.Fail? { return; }
    var r6 := ForAssignment(toks, r5.c);
    ForAssignmentNests(toks, r5.c); Chain(st, r5.c, r6);
    if r6.Fail? { return; }
    AcceptNests(toks, r6.c, RightParen); Chain(st, r6.c, Accept(toks, r6.c, RightParen));
  }

  lemma {:induction false} ForAssignmentNests(toks: seq<Token>, st: Cursor)
    requires InBounds(toks, st)
    ensures Nests(st, ForAssignment(toks, st))
  {
    var r1 := Accept(toks, st, Identifier);
    AcceptNests(toks, st, Identifier);
    if r1.Fail? { return; }
    var r2 := Accept(toks, r1.c, Becomes);
    AcceptNests(toks, r1.c, Becomes); Chain(st, r1.c, r2);
    if r2.Fail? { return; }
    ExpressionNests(toks, r2.c); Chain(st, r2.c, Expression(toks, r2.c));
  }

  /** A non-empty argument list nests; `( )` leaves ArgumentList open. */
  lemma ArgumentListNests(toks: seq<Token>, st: Cursor)
    requires InBounds(toks, st)
    ensures var r := ArgumentList(toks, st);
      r.Ok? ==> Look(toks, st) == LeftParen && st.pos + 1 < |toks|
    ensures var r := ArgumentList(toks, st);
      r.Ok? && toks[st.pos + 1].kind != RightParen ==> Nests(st, r)
    ensures var r := ArgumentList(toks, st);
      r.Ok? && toks[st.pos + 1].kind == RightParen && Open(st.trace).Some? ==>
        Open(r.c.trace) == Some(Open(st.trace).value + ["ArgumentList"])
  {
    if Look(toks, st) == LeftParen && st.pos + 1 < |toks| && toks[st.pos + 1].kind == RightParen {
      ArgumentListEmptyOpens(toks, st);
    } else {
      ArgumentListFullNests(toks, st);
    }
  }

  lemma ArgumentListEmptyOpens(toks: seq<Token>, st: Cursor)
    requires InBounds(toks, st) && Look(toks, st) == LeftParen && st.pos + 1 < |toks|
    requires toks[st.pos + 1].kind == RightParen
    ensures var r := ArgumentList(toks, st);
      r.Ok? && (Open(st.trace).Some? ==> Open(r.c.trace) == Some(Open(st.trace).value + ["ArgumentList"]))
  {
    ArgumentListEmpty(toks, st);
    var t1 := st.trace + [Terminal(toks[st.pos])];
    var t2 := t1 + [Commence("ArgumentList")];
    OpenSnoc(st.trace, Terminal(toks[st.pos]));
    OpenSnoc(t1, Commence("ArgumentList"));
    OpenSnoc(t2, Terminal(toks[st.pos + 1]));
    assert t2 + [Terminal(toks[st.pos + 1])] ==
      st.trace + [Terminal(toks[st.pos]), Commence("ArgumentList"), Terminal(toks[st.pos + 1])];
  }

  lemma {:induction false} ArgumentListFullNests(toks: seq<Token>, st: Cursor)
    requires InBounds(toks, st)
    requires !(Look(toks, st) == LeftParen && st.pos + 1 < |toks| && toks[st.pos + 1].kind == RightParen)
    ensures var r := ArgumentList(toks, st);
      r.Ok? ==> Look(toks, st) == LeftParen && st.pos + 1 < |toks| && Nests(st, r)
  {
    var r1 := Accept(toks, st, LeftParen);
    AcceptNests(toks, st, LeftParen);
    if r1.Fail? { return; }
    var s2 := r1.c.Emit(Commence("ArgumentList"));
    var r3: Outcome;
    if Look(toks, s2) == Identifier {
      var a := Accept(toks, s2, Identifier);
      AcceptNests(toks, s2, Identifier);
      r3 := ArgumentTail(toks, a.c);
      ArgumentTailNests(toks, a.c); Chain(s2, a.c, r3);
    } else {
      r3 := Fail(s2, MissingArgument);
    }
    if r3.Fail? { return; }
    var s4 := r3.c.Emit(Finish("ArgumentList"));
    assert ArgumentList(toks, st) == Accept(toks, s4, RightParen);
    Leave(r1.c, r3.c, "ArgumentList");
    Chain(st, r1.c, Ok(s4));
    AcceptNests(toks, s4, RightParen); Chain(st, s4, Accept(toks, s4, RightParen));
  }

  lemma {:induction false} ArgumentTailNests(toks: seq<Token>, st: Cursor)
    requires InBounds(toks, st)
    ensures Nests(st, ArgumentTail(toks, st))
    decreases |toks| - st.pos
  {
    if Look(toks, st) != Comma { return; }
    var a := Accept(toks, st, Comma);
    AcceptNests(toks, st, Comma);
    var r2: Outcome;
    if Look(toks, a.c) == Identifier {
      r2 := Accept(toks, a.c, Identifier); AcceptNests(toks, a.c, Identifier);
    } else {
      r2 := Fail(a.c, MissingArgumentAfterComma);
    }
    Chain(st, a.c, r2);
    if r2.Fail? { return; }
    ArgumentTailNests(toks, r2.c); Chain(st, r2.c, ArgumentTail(toks, r2.c));
  }

  lemma {:induction false} ConditionNests(toks: seq<Token>, st: Cursor)
    requires InBounds(toks, st)
    ensures Nests(st, Condition(toks, st))
  {
    var s0 := st.Emit(Commence("Condition"));
    var r1 := Accept(toks, s0, Identifier);
    AcceptNests(toks, s0, Identifier);
    if r1.Fail? { return; }
    var r2 := ConditionalOperator(toks, r1.c);
    ConditionalOperatorNests(toks, r1.c); Chain(s0, r1.c, r2);
    if r2.Fail? { return; }
    var r3 := Accept(toks, r2.c, NumberConstant);
    AcceptNests(toks, r2.c, NumberConstant); Chain(s0, r2.c, r3);
    if r3.Fail? { return; }
    Leave(st, r3.c, "Condition");
  }

  lemma {:induction false} ConditionalOperatorNests(toks: seq<Token>, st: Cursor)
    requires InBounds(toks, st)
    ensures Nests(st, ConditionalOperator(toks, st))
  {
    var s0 := st.Emit(Commence("ConditionalOperator"));
    if IsRelational(Look(toks, s0)) {
      var r1 := Accept(toks, s0, Look(toks, s0));
      AcceptNests(toks, s0, Look(toks, s0));
      Leave(st, r1.c, "ConditionalOperator");
    }
  }

  lemma {:induction false} ExpressionNests(toks: seq<Token>, st: Cursor)
    requires InBounds(toks, st)
    ensures Nests(st, Expression(toks, st))
    decreases |toks| - st.pos, 4
  {
    var s0 := st.Emit(Commence("Expression"));
    var r1 := Term(toks, s0);
    TermNests(toks, s0);
    if r1.Fail? { return; }
    var r2 := ExpressionTail(toks, r1.c);
    ExpressionTailNests(toks, r1.c); Chain(s0, r1.c, r2);
    if r2.Fail? { return; }
    Leave(st, r2.c, "Expression");
  }

  lemma {:induction false} ExpressionTailNests(toks: seq<Token>, st: Cursor)
    requires InBounds(toks, st)
    ensures Nests(st, ExpressionTail(toks, st))
    decreases |toks| - st.pos, 3
  {
    if !IsAdditive(Look(toks, st)) { return; }
    var a := Accept(toks, st, Look(toks, st));
    AcceptNests(toks, st, Look(toks, st));
    var r2 := Expression(toks, a.c);
    ExpressionNests(toks, a.c); Chain(st, a.c, r2);
    if r2.Fail? { return; }
    ExpressionTailNests(toks, r2.c); Chain(st, r2.c, ExpressionTail(toks, r2.c));
  }

  lemma {:induction false} TermNests(toks: seq<Token>, st: Cursor)
    requires InBounds(toks, st)
    ensures Nests(st, Term(toks, st))
    decreases |toks| - st.pos, 2
  {
    var s0 := st.Emit(Commence("Term"));
    var r1 := Factor(toks, s0);
    FactorNests(toks, s0);
    if r1.Fail? { return; }
    var r2 := TermTail(toks, r1.c);
    TermTailNests(toks, r1.c); Chain(s0, r1.c, r2);
    if r2.Fail? { return; }
    Leave(st, r2.c, "Term");
  }

  lemma {:induction false} TermTailNests(toks: seq<Token>, st: Cursor)
    requires InBounds(toks, st)
    ensures Nests(st, TermTail(toks, st))
    decreases |toks| - st.pos, 1
  {
    if !IsMultiplicative(Look(toks, st)) { return; }
    var a := Accept(toks, st, Look(toks, st));
    AcceptNests(toks, st, Look(toks, st));
    var r2 := Term(toks, a.c);
    TermNests(toks, a.c); Chain(st, a.c, r2);
    if r2.Fail? { return; }
    TermTailNests(toks, r2.c); Chain(st, r2.c, TermTail(toks, r2.c));
  }

  lemma {:induction false} FactorNests(toks: seq<Token>, st: Cursor)
    requires InBounds(toks, st)
    ensures Nests(st, Factor(toks, st))
    decreases |toks| - st.pos, 0
  {
    var s0 := st.Emit(Commence("Factor"));
    var r1: Outcome;
    if Look(toks, s0) == Identifier || Look(toks, s0) == NumberConstant {
      r1 := Accept(toks, s0, Look(toks, s0));
      AcceptNests(toks, s0, Look(toks, s0));
    } else if Look(toks, s0) == LeftParen {
      var a := Accept(toks, s0, LeftParen);
      AcceptNests(toks, s0, LeftParen);
      var b := Expression(toks, a.c);
      ExpressionNests(toks, a.c); Chain(s0, a.c, b);
      if b.Fail? {
        r1 := b;
      } else {
        r1 := Accept(toks, b.c, RightParen);
        AcceptNests(toks, b.c, RightParen); Chain(s0, b.c, r1);
      }
    } else {
      r1 := Fail(s0, MissingFactor);
    }
    if r1.Fail? { return; }
    Leave(st, r1.c, "Factor");
  }

  /** From the entry point, on an input without `( )`: an accepted program
      sends a well-nested trace, every nonterminal it commences finished. */
  lemma ParseNests(toks: seq<Token>)
    requires WellFormed(toks) && NoEmptyList(toks)
    ensures var r := Parse(toks); r.Ok? ==> Open(r.c.trace) == Some([]) && Depth(r.c.trace) == 0
  {
    StatementPartNests(toks, Cursor(0, []));
  }
}
