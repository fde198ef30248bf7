// The statement productions as fixed sequences: which lookahead selects
// which production, what a successful one must end with, and the do-until
// production that can never end normally.
module StatementLemmas {
  import opened Tokens
  import opened Trace
  import opened Outcomes
  import opened Productions
  import ListLemmas

  /** A whole program that is accepted starts with 'begin' and ends with
      'end', and the sink sees StatementPart finished last. */
  lemma StatementPartBrackets(toks: seq<Token>, st: Cursor)
    requires InBounds(toks, st)
    ensures var r := StatementPart(toks, st);
      r.Ok? ==> st.pos + 2 <= r.c.pos && toks[st.pos].kind == Begin && toks[r.c.pos - 1].kind == End &&
                r.c.trace[|r.c.trace| - 2..] == [Terminal(toks[r.c.pos - 1]), Finish("StatementPart")]
  {
    var s0 := st.Emit(Commence("StatementPart"));
    var r1 := Accept(toks, s0, Begin);
    if r1.Fail? { return; }
    var r2 := StatementList(toks, r1.c);
    if r2.Fail? { return; }
    var r3 := Accept(toks, r2.c, End);
    if r3.Fail? { return; }
    assert StatementPart(toks, st) == Ok(r3.c.Emit(Finish("StatementPart")));
  }

  /** The statement production fails at its very first token exactly when
      that token starts no statement; 'else' there is reported as an else
      without an if, anything else as an unknown statement. */
  lemma StatementDispatch(toks: seq<Token>, st: Cursor)
    requires InBounds(toks, st)
    ensures var r := Statement(toks, st);
      (r.Fail? && r.c.pos == st.pos) <==> !StartsStatement(Look(toks, st))
    ensures Look(toks, st) == Else ==>
      Statement(toks, st) == Fail(st.Emit(Commence("Statement")), ElseWithoutIf)
    ensures !StartsStatement(Look(toks, st)) && Look(toks, st) != Else ==>
      Statement(toks, st) == Fail(st.Emit(Commence("Statement")), UnknownStatement)
  {
    var s0 := st.Emit(Commence("Statement"));
    var k := Look(toks, st);
    if k == Call {
      ProcedureStatementOpens(toks, s0);
    } else if k == Identifier {
      AssignmentStatementOpens(toks, s0);
    } else if k == While {
      WhileStatementShape(toks, s0);
    } else if k == For {
      ForStatementShape(toks, s0);
    } else if k == If {
      IfStatementOpens(toks, s0);
    } else if k == Do {
      UntilStatementFails(toks, s0);
    }
  }

  /** A procedure statement fails at its first token exactly when that is
      not 'call'. */
  lemma ProcedureStatementOpens(toks: seq<Token>, st: Cursor)
    requires InBounds(toks, st)
    ensures var r := ProcedureStatement(toks, st);
      (r.c.pos == st.pos <==> Look(toks, st) != Call) &&
      (Look(toks, st) != Call ==> r == Fail(st.Emit(Commence("ProcedureStatement")), Expected(Call)))
  {
    var r1 := Accept(toks, st.Emit(Commence("ProcedureStatement")), Call);
    if r1.Fail? { return; }
    var r2 := Accept(toks, r1.c, Identifier);
    if r2.Fail? { return; }
    var r3 := ArgumentList(toks, r2.c);
  }

  /** An assignment fails at its first token exactly when that is not an
      identifier. */
  lemma AssignmentStatementOpens(toks: seq<Token>, st: Cursor)
    requires InBounds(toks, st)
    ensures var r := AssignmentStatement(toks, st);
      (r.c.pos == st.pos <==> Look(toks, st) != Identifier) &&
      (Look(toks, st) != Identifier ==> r == Fail(st.Emit(Commence("AssignmentStatement")), Expected(Identifier)))
  {
    var r1 := Accept(toks, st.Emit(Commence("AssignmentStatement")), Identifier);
    if r1.Fail? { return; }
    var r2 := Accept(toks, r1.c, Becomes);
    if r2.Fail? { return; }
  }

  /** An if statement fails at its first token exactly when that is not
      'if'. */
  lemma IfStatementOpens(toks: seq<Token>, st: Cursor)
    requires InBounds(toks, st)
    ensures var r := IfStatement(toks, st);
      (r.c.pos == st.pos <==> Look(toks, st) != If) &&
      (Look(toks, st) != If ==> r == Fail(st.Emit(Commence("IfStatement")), Expected(If)))
  {
    var r1 := Accept(toks, st.Emit(Commence("IfStatement")), If);
    if r1.Fail? { return; }
    var r2 := Condition(toks, r1.c);
    if r2.Fail? { return; }
    var r3 := Accept(toks, r2.c, Then);
    if r3.Fail? { return; }
    var r4 := StatementList(toks, r3.c);
    if r4.Fail? { return; }
    var r5 := ElsePart(toks, r4.c);
    if r5.Fail? { return; }
    var r6 := Accept(toks, r5.c, End);
    if r6.Fail? { return; }
  }

  /** An if statement that is accepted closed with 'end' 'if'. */
  lemma IfStatementCloses(toks: seq<Token>, st: Cursor)
    requires InBounds(toks, st)
    ensures var r := IfStatement(toks, st);
      r.Ok? ==> st.pos + 3 <= r.c.pos &&
                toks[r.c.pos - 2].kind == End && toks[r.c.pos - 1].kind == If &&
                EndsWith(r.c.trace, [Terminal(toks[r.c.pos - 2]), Terminal(toks[r.c.pos - 1]), Finish("IfStatement")])
  {
    var r1 := Accept(toks, st.Emit(Commence("IfStatement")), If);
    if r1.Fail? { return; }
    var r2 := Condition(toks, r1.c);
    if r2.Fail? { return; }
    var r3 := Accept(toks, r2.c, Then);
    if r3.Fail? { return; }
    var r4 := StatementList(toks, r3.c);
    if r4.Fail? { return; }
    var r5 := ElsePart(toks, r4.c);
    if r5.Fail? { return; }
    Closing(toks, r5.c, End, If, "IfStatement");
    assert IfStatement(toks, st) == Closed(toks, r5.c, End, If, "IfStatement");
  }

  /** A while statement fails at its first token exactly when that is not
      'while', and one that is accepted closed with 'end' 'loop'. */
  lemma WhileStatementShape(toks: seq<Token>, st: Cursor)
    requires InBounds(toks, st)
    ensures var r := WhileStatement(toks, st);
      (r.c.pos == st.pos <==> Look(toks, st) != While) &&
      (Look(toks, st) != While ==> r == Fail(st.Emit(Commence("WhileStatement")), Expected(While)))
    ensures var r := WhileStatement(toks, st);
      r.Ok? ==> st.pos + 3 <= r.c.pos &&
                toks[r.c.pos - 2].kind == End && toks[r.c.pos - 1].kind == Loop &&
                EndsWith(r.c.trace, [Terminal(toks[r.c.pos - 2]), Terminal(toks[r.c.pos - 1]), Finish("WhileStatement")])
  {
    var r1 := Accept(toks, st.Emit(Commence("WhileStatement")), While);
    if r1.Fail? { return; }
    var r2 := Condition(toks, r1.c);
    if r2.Fail? { return; }
    var r3 := Accept(toks, r2.c, Loop);
    if r3.Fail? { return; }
    var r4 := StatementList(toks, r3.c);
    if r4.Fail? { return; }
    Closing(toks, r4.c, End, Loop, "WhileStatement");
    assert WhileStatement(toks, st) == Closed(toks, r4.c, End, Loop, "WhileStatement");
  }

  /** A for statement fails at its first token exactly when that is not
      'for', and one that is accepted closed with 'end' 'loop'. */
  lemma ForStatementShape(toks: seq<Token>, st: Cursor)
    requires InBounds(toks, st)
    ensures var r := ForStatement(toks, st);
      (r.c.pos == st.pos <==> Look(toks, st) != For) &&
      (Look(toks, st) != For ==> r == Fail(st.Emit(Commence("ForStatement")), Expected(For)))
    ensures var r := ForStatement(toks, st);
      r.Ok? ==> st.pos + 3 <= r.c.pos &&
                toks[r.c.pos - 2].kind == End && toks[r.c.pos - 1].kind == Loop &&
                EndsWith(r.c.trace, [Terminal(toks[r.c.pos - 2]), Terminal(toks[r.c.pos - 1]), Finish("ForStatement")])
  {
    var r1 := Accept(toks, st.Emit(Commence("ForStatement")), For);
    if r1.Fail? { return; }
    var r2 := ForControl(toks, r1.c);
    if r2.Fail? { return; }
    var r3 := Accept(toks, r2.c, Do);
    if r3.Fail? { return; }
    var r4 := StatementList(toks, r3.c);
    if r4.Fail? { return; }
    Closing(toks, r4.c, End, Loop, "ForStatement");
    assert ForStatement(toks, st) == Closed(toks, r4.c, End, Loop, "ForStatement");
  }

  /** Two closing keywords and the Finish event of a statement production. */
  function Closed(toks: seq<Token>, c: Cursor, first: Kind, second: Kind, name: string): Outcome
    requires InBounds(toks, c) && first != Eof && second != Eof
  {
    var s1 :- Accept(toks, c, first);
    var s2 :- Accept(toks, s1, second);
    Ok(s2.Emit(Finish(name)))
  }

  lemma Closing(toks: seq<Token>, c: Cursor, first: Kind, second: Kind, name: string)
    requires InBounds(toks, c) && first != Eof && second != Eof
    ensures var r := Closed(toks, c, first, second, name);
      r.Ok? ==> r.c.pos == c.pos + 2 && toks[c.pos].kind == first && toks[c.pos + 1].kind == second &&
                EndsWith(r.c.trace, [Terminal(toks[c.pos]), Terminal(toks[c.pos + 1]), Finish(name)])
  {
    var r := Closed(toks, c, first, second, name);
    if r.Ok? {
      assert r.c.trace == c.trace + [Terminal(toks[c.pos]), Terminal(toks[c.pos + 1]), Finish(name)];
    }
  }

  /** The else-branch after the then-branch is taken exactly when the
      lookahead is 'else', and its statement list stops at 'end', 'else' or
      end-of-input. */
  lemma ElsePartThenEnd(toks: seq<Token>, st: Cursor)
    requires InBounds(toks, st)
    ensures Look(toks, st) != Else ==> ElsePart(toks, st) == Ok(st)
    ensures var r := ElsePart(toks, st);
      r.Ok? && Look(toks, st) == Else ==> st.pos < r.c.pos && EndsList(Look(toks, r.c))
  {
    if Look(toks, st) == Else {
      var a := Accept(toks, st, Else);
      ListLemmas.StatementListStops(toks, a.c);
    }
  }

  /** The do-until production never ends normally: its statement list only
      returns at 'end', 'else' or end-of-input, so the 'until' it expects
      next is never there. It fails at its first token exactly when that is
      not 'do'. */
  lemma UntilStatementFails(toks: seq<Token>, st: Cursor)
    requires InBounds(toks, st)
    ensures UntilStatement(toks, st).Fail?
    ensures var r := UntilStatement(toks, st);
      (r.c.pos == st.pos <==> Look(toks, st) != Do) &&
      (Look(toks, st) != Do ==> r == Fail(st.Emit(Commence("DoUntilStatement")), Expected(Do)))
  {
    var s0 := st.Emit(Commence("DoUntilStatement"));
    var r1 := Accept(toks, s0, Do);
    if r1.Fail? { return; }
    ListLemmas.StatementListStops(toks, r1.c);
    var r2 := StatementList(toks, r1.c);
    if r2.Fail? { return; }
    assert Accept(toks, r2.c, Until).Fail?;
  }
}
