// The syntax analyser as SyntaxAnalyser.java writes it: an object whose
// lookahead moves only through AcceptTerminal, and whose productions send
// events to a sink as they go. The lookahead is the index `pos` into the
// token sequence; the sink is the `trace` it has been sent. Each method is
// proved to end exactly as the production function of the same name says,
// with a reported error as an early return carrying that error.
module Analyser {
  import opened Tokens
  import opened Trace
  import opened Outcomes
  import Productions

  class SyntaxAnalyser {
    const toks: seq<Token>
    var pos: nat
    var trace: seq<Event>

    /** The lookahead exists. */
    ghost predicate Valid()
      reads this
    {
      InBounds(toks, State())
    }

    function State(): Cursor
      reads this
    {
      Cursor(pos, trace)
    }

    /** The analyser stands where `r` leaves it and has raised `r`'s error. */
    ghost predicate Reached(r: Outcome, err: Option<Error>)
      reads this
    {
      State() == r.c && err == r.Raised()
    }

    /** The lookahead primed on the first token, with nothing sent yet. */
    constructor (input: seq<Token>)
      requires WellFormed(input)
      ensures toks == input && pos == 0 && trace == []
      ensures Valid()
    {
      toks := input;
      pos := 0;
      trace := [];
    }

    method CommenceNonterminal(name: string)
      requires Valid()
      modifies this
      ensures Valid()
      ensures State() == old(State()).Emit(Commence(name))
    {
      trace := trace + [Commence(name)];
    }

    method FinishNonterminal(name: string)
      requires Valid()
      modifies this
      ensures Valid()
      ensures State() == old(State()).Emit(Finish(name))
    {
      trace := trace + [Finish(name)];
    }

    /** acceptTerminal: send the lookahead to the sink and move past it when
        it has kind `k`; otherwise raise the mismatch. */
    method AcceptTerminal(k: Kind) returns (err: Option<Error>)
      requires Valid() && k != Eof
      modifies this
      ensures Valid()
      ensures Reached(Productions.Accept(toks, old(State()), k), err)
    {
      if toks[pos].kind == k {
        trace := trace + [Terminal(toks[pos])];
        pos := pos + 1;
        err := None;
      } else {
        err := Some(Expected(k));
      }
    }

    method StatementPart() returns (err: Option<Error>)
      requires Valid()
      modifies this
      ensures Valid()
      ensures Reached(Productions.StatementPart(toks, old(State())), err)
    {
      CommenceNonterminal("StatementPart");
      err := AcceptTerminal(Begin);
      if err.Some? { return; }
      err := StatementList();
      if err.Some? { return; }
      err := AcceptTerminal(End);
      if err.Some? { return; }
      FinishNonterminal("StatementPart");
    }

    method StatementList() returns (err: Option<Error>)
      requires Valid()
      modifies this
      ensures Valid()
      ensures Reached(Productions.StatementList(toks, old(State())), err)
      decreases |toks| - pos, 2
    {
      err := None;
      while !EndsList(toks[pos].kind)
        invariant Valid() && old(pos) <= pos && err == None
        invariant Productions.StatementList(toks, old(State())) == Productions.StatementList(toks, State())
        decreases |toks| - pos
      {
        CommenceNonterminal("StatementList");
        err := Statement();
        if err.Some? { return; }
        if toks[pos].kind == Semicolon {
          err := AcceptTerminal(Semicolon);
          if err.Some? { return; }
          err := StatementList();
          if err.Some? { return; }
        } else if toks[pos].kind != End && toks[pos].kind != Else && toks[pos].kind != Semicolon {
          err := Some(MissingSeparator);
          return;
        }
        FinishNonterminal("StatementList");
      }
    }

    method Statement() returns (err: Option<Error>)
      requires Valid()
      modifies this
      ensures Valid()
      ensures Reached(Productions.Statement(toks, old(State())), err)
      decreases |toks| - pos, 1
    {
      CommenceNonterminal("Statement");
      var k := toks[pos].kind;
      if k == Call {
        err := ProcedureStatement();
      } else if k == Identifier {
        err := AssignmentStatement();
      } else if k == While {
        err := WhileStatement();
      } else if k == For {
        err := ForStatement();
      } else if k == If {
        err := IfStatement();
      } else if k == Do {
        err := UntilStatement();
      } else if k == Else {
        err := Some(ElseWithoutIf);
      } else {
        err := Some(UnknownStatement);
      }
      if err.Some? { return; }
      FinishNonterminal("Statement");
    }

    method AssignmentStatement() returns (err: Option<Error>)
      requires Valid()
      modifies this
      ensures Valid()
      ensures Reached(Productions.AssignmentStatement(toks, old(State())), err)
      decreases |toks| - pos, 0
    {
      CommenceNonterminal("AssignmentStatement");
      err := AcceptTerminal(Identifier);
      if err.Some? { return; }
      err := AcceptTerminal(Becomes);
      if err.Some? { return; }
      if toks[pos].kind == StringConstant {
        err := AcceptTerminal(StringConstant);
      } else {
        err := Expression();
      }
      if err.Some? { return; }
      FinishNonterminal("AssignmentStatement");
    }

    method IfStatement() returns (err: Option<Error>)
      requires Valid()
      modifies this
      ensures Valid()
      ensures Reached(Productions.IfStatement(toks, old(State())), err)
      decreases |toks| - pos, 0
    {
      ghost var s0 := State().Emit(Commence("IfStatement"));
      ghost var r1 := Productions.Accept(toks, s0, If);
      ghost var r2 := Productions.Condition(toks, r1.c);
      ghost var r3 := Productions.Accept(toks, r2.c, Then);
      ghost var r4 := Productions.StatementList(toks, r3.c);
      ghost var r5 := Productions.ElsePart(toks, r4.c);
      ghost var r6 := Productions.Accept(toks, r5.c, End);
      ghost var r7 := Productions.Accept(toks, r6.c, If);
      assert Productions.IfStatement(toks, State()) ==
        if r1.Fail? then r1 else if r2.Fail? then r2 else if r3.Fail? then r3 else
        if r4.Fail? then r4 else if r5.Fail? then r5 else if r6.Fail? then r6 else
        if r7.Fail? then r7 else Ok(r7.c.Emit(Finish("IfStatement")));
      CommenceNonterminal("IfStatement");
      err := AcceptTerminal(If);
      if err.Some? { return; }
      err := Condition();
      if err.Some? { return; }
      err := AcceptTerminal(Then);
      if err.Some? { return; }
      err := StatementList();
      if err.Some? { return; }
      if toks[pos].kind == Else {
        err := AcceptTerminal(Else);
        if err.Some? { return; }
        err := StatementList();
        if err.Some? { return; }
      }
      err := AcceptTerminal(End);
      if err.Some? { return; }
      err := AcceptTerminal(If);
      if err.Some? { return; }
      FinishNonterminal("IfStatement");
    }

    method WhileStatement() returns (err: Option<Error>)
      requires Valid()
      modifies this
      ensures Valid()
      ensures Reached(Productions.WhileStatement(toks, old(State())), err)
      decreases |toks| - pos, 0
    {
      ghost var s0 := State().Emit(Commence("WhileStatement"));
      ghost var r1 := Productions.Accept(toks, s0, While);
      ghost var r2 := Productions.Condition(toks, r1.c);
      ghost var r3 := Productions.Accept(toks, r2.c, Loop);
      ghost var r4 := Productions.StatementList(toks, r3.c);
      ghost var r5 := Productions.Accept(toks, r4.c, End);
      ghost var r6 := Productions.Accept(toks, r5.c, Loop);
      assert Productions.WhileStatement(toks, State()) ==
        if r1.Fail? then r1 else if r2.Fail? then r2 else if r3.Fail? then r3 else
        if r4.Fail? then r4 else if r5.Fail? then r5 else if r6.Fail? then r6 else
        Ok(r6.c.Emit(Finish("WhileStatement")));
      CommenceNonterminal("WhileStatement");
      err := AcceptTerminal(While);
      if err.Some? { return; }
      err := Condition();
      if err.Some? { return; }
      err := AcceptTerminal(Loop);
      if err.Some? { return; }
      err := StatementList();
      if err.Some? { return; }
      err := AcceptTerminal(End);
      if err.Some? { return; }
      err := AcceptTerminal(Loop);
      if err.Some? { return; }
      FinishNonterminal("WhileStatement");
    }

    method ProcedureStatement() returns (err: Option<Error>)
      requires Valid()
      modifies this
      ensures Valid()
      ensures Reached(Productions.ProcedureStatement(toks, old(State())), err)
      decreases |toks| - pos, 0
    {
      CommenceNonterminal("ProcedureStatement");
      err := AcceptTerminal(Call);
      if err.Some? { return; }
      err := AcceptTerminal(Identifier);
      if err.Some? { return; }
      err := ArgumentList();
      if err.Some? { return; }
      FinishNonterminal("ProcedureStatement");
    }

    method UntilStatement() returns (err: Option<Error>)
      requires Valid()
      modifies this
      ensures Valid()
      ensures Reached(Productions.UntilStatement(toks, old(State())), err)
      decreases |toks| - pos, 0
    {
      ghost var s0 := State().Emit(Commence("DoUntilStatement"));
      ghost var r1 := Productions.Accept(toks, s0, Do);
      ghost var r2 := Productions.StatementList(toks, r1.c);
      ghost var r3 := Productions.Accept(toks, r2.c, Until);
      ghost var r4 := Productions.Condition(toks, r3.c);
      assert Productions.UntilStatement(toks, State()) ==
        if r1.Fail? then r1 else if r2.Fail? then r2 else if r3.Fail? then r3 else
        if r4.Fail? then r4 else Ok(r4.c.Emit(Finish("DoUntilStatement")));
      CommenceNonterminal("DoUntilStatement");
      err := AcceptTerminal(Do);
      if err.Some? { return; }
      err := StatementList();
      if err.Some? { return; }
      err := AcceptTerminal(Until);
      if err.Some? { return; }
      err := Condition();
      if err.Some? { return; }
      FinishNonterminal("DoUntilStatement");
    }

    method ForStatement() returns (err: Option<Error>)
      requires Valid()
      modifies this
      ensures Valid()
      ensures Reached(Productions.ForStatement(toks, old(State())), err)
      decreases |toks| - pos, 0
    {
      ghost var s0 := State().Emit(Commence("ForStatement"));
      ghost var r1 := Productions.Accept(toks, s0, For);
      ghost var r2 := Productions.ForControl(toks, r1.c);
      ghost var r3 := Productions.Accept(toks, r2.c, Do);
      ghost var r4 := Productions.StatementList(toks, r3.c);
      ghost var r5 := Productions.Accept(toks, r4.c, End);
      ghost var r6 := Productions.Accept(toks, r5.c, Loop);
      assert Productions.ForStatement(toks, State()) ==
        if r1.Fail? then r1 else if r2.Fail? then r2 else if r3.Fail? then r3 else
        if r4.Fail? then r4 else if r5.Fail? then r5 else if r6.Fail? then r6 else
        Ok(r6.c.Emit(Finish("ForStatement")));
      CommenceNonterminal("ForStatement");
      err := AcceptTerminal(For);
      if err.Some? { return; }
      err := ForControl();
      if err.Some? { return; }
      err := AcceptTerminal(Do);
      if err.Some? { return; }
      err := StatementList();
      if err.Some? { return; }
      err := AcceptTerminal(End);
      if err.Some? { return; }
      err := AcceptTerminal(Loop);
      if err.Some? { return; }
      FinishNonterminal("ForStatement");
    }

    /** The bracketed control part of the for statement. */
    method ForControl() returns (err: Option<Error>)
      requires Valid()
      modifies this
      ensures Valid()
      ensures Reached(Productions.ForControl(toks, old(State())), err)
      decreases |toks| - pos, 0
    {
      ghost var r1 := Productions.Accept(toks, State(), LeftParen);
      ghost var r2 := Productions.ForAssignment(toks, r1.c);
      ghost var r3 := Productions.Accept(toks, r2.c, Semicolon);
      ghost var r4 := Productions.Condition(toks, r3.c);
      ghost var r5 := Productions.Accept(toks, r4.c, Semicolon);
      ghost var r6 := Productions.ForAssignment(toks, r5.c);
      ghost var r7 := Productions.Accept(toks, r6.c, RightParen);
      assert Productions.ForControl(toks, State()) ==
        if r1.Fail? then r1 else if r2.Fail? then r2 else if r3.Fail? then r3 else
        if r4.Fail? then r4 else if r5.Fail? then r5 else if r6.Fail? then r6 else r7;
      err := AcceptTerminal(LeftParen);
      if err.Some? { return; }
      err := ForAssignment();
      if err.Some? { return; }
      err := AcceptTerminal(Semicolon);
      if err.Some? { return; }
      err := Condition();
      if err.Some? { return; }
      err := AcceptTerminal(Semicolon);
      if err.Some? { return; }
      err := ForAssignment();
      if err.Some? { return; }
      err := AcceptTerminal(RightParen);
    }

    method ForAssignment() returns (err: Option<Error>)
      requires Valid()
      modifies this
      ensures Valid()
      ensures Reached(Productions.ForAssignment(toks, old(State())), err)
      decreases |toks| - pos, 0
    {
      err := AcceptTerminal(Identifier);
      if err.Some? { return; }
      err := AcceptTerminal(Becomes);
      if err.Some? { return; }
      err := Expression();
    }

    method ArgumentList() returns (err: Option<Error>)
      requires Valid()
      modifies this
      ensures Valid()
      ensures Reached(Productions.ArgumentList(toks, old(State())), err)
    {
      err := AcceptTerminal(LeftParen);
      if err.Some? { return; }
      CommenceNonterminal("ArgumentList");
      if toks[pos].kind == RightParen {
        err := AcceptTerminal(RightParen);
        return;
      }
      if toks[pos].kind != Identifier {
        err := Some(MissingArgument);
        return;
      }
      err := AcceptTerminal(Identifier);
      ghost var tail := State();
      while toks[pos].kind == Comma
        invariant Valid() && err == None
        invariant Productions.ArgumentTail(toks, tail) == Productions.ArgumentTail(toks, State())
        decreases |toks| - pos
      {
        err := AcceptTerminal(Comma);
        if toks[pos].kind != Identifier {
          err := Some(MissingArgumentAfterComma);
          return;
        }
        err := AcceptTerminal(Identifier);
      }
      FinishNonterminal("ArgumentList");
      err := AcceptTerminal(RightParen);
    }

    method Condition() returns (err: Option<Error>)
      requires Valid()
      modifies this
      ensures Valid()
      ensures Reached(Productions.Condition(toks, old(State())), err)
    {
      ghost var s0 := State().Emit(Commence("Condition"));
      ghost var r1 := Productions.Accept(toks, s0, Identifier);
      ghost var r2 := Productions.ConditionalOperator(toks, r1.c);
      ghost var r3 := Productions.Accept(toks, r2.c, NumberConstant);
      assert Productions.Condition(toks, State()) ==
        if r1.Fail? then r1 else if r2.Fail? then r2 else if r3.Fail? then r3 else
        Ok(r3.c.Emit(Finish("Condition")));
      CommenceNonterminal("Condition");
      err := AcceptTerminal(Identifier);
      if err.Some? { return; }
      err := ConditionalOperator();
      if err.Some? { return; }
      err := AcceptTerminal(NumberConstant);
      if err.Some? { return; }
      FinishNonterminal("Condition");
    }

    method ConditionalOperator() returns (err: Option<Error>)
      requires Valid()
      modifies this
      ensures Valid()
      ensures Reached(Productions.ConditionalOperator(toks, old(State())), err)
    {
      CommenceNonterminal("ConditionalOperator");
      if IsRelational(toks[pos].kind) {
        err := AcceptTerminal(toks[pos].kind);
        FinishNonterminal("ConditionalOperator");
      } else {
        err := Some(MissingComparison);
      }
    }

    method Expression() returns (err: Option<Error>)
      requires Valid()
      modifies this
      ensures Valid()
      ensures Reached(Productions.Expression(toks, old(State())), err)
      decreases |toks| - pos, 4
    {
      CommenceNonterminal("Expression");
      err := Term();
      if err.Some? { return; }
      ghost var tail := State();
      while IsAdditive(toks[pos].kind)
        invariant Valid() && old(pos) < pos && err == None
        invariant Productions.ExpressionTail(toks, tail) == Productions.ExpressionTail(toks, State())
        decreases |toks| - pos
      {
        err := AcceptTerminal(toks[pos].kind);
        err := Expression();
        if err.Some? { return; }
      }
      FinishNonterminal("Expression");
    }

    method Term() returns (err: Option<Error>)
      requires Valid()
      modifies this
      ensures Valid()
      ensures Reached(Productions.Term(toks, old(State())), err)
      decreases |toks| - pos, 2
    {
      CommenceNonterminal("Term");
      err := Factor();
      if err.Some? { return; }
      ghost var tail := State();
      while IsMultiplicative(toks[pos].kind)
        invariant Valid() && old(pos) < pos && err == None
        invariant Productions.TermTail(toks, tail) == Productions.TermTail(toks, State())
        decreases |toks| - pos
      {
        err := AcceptTerminal(toks[pos].kind);
        err := Term();
        if err.Some? { return; }
      }
      FinishNonterminal("Term");
    }

    method Factor() returns (err: Option<Error>)
      requires Valid()
      modifies this
      ensures Valid()
      ensures Reached(Productions.Factor(toks, old(State())), err)
      decreases |toks| - pos, 0
    {
      CommenceNonterminal("Factor");
      var k := toks[pos].kind;
      if k == Identifier || k == NumberConstant {
        err := AcceptTerminal(k);
      } else if k == LeftParen {
        err := AcceptTerminal(LeftParen);
        if err.Some? { return; }
        err := Expression();
        if err.Some? { return; }
        err := AcceptTerminal(RightParen);
      } else {
        err := Some(MissingFactor);
      }
      if err.Some? { return; }
      FinishNonterminal("Factor");
    }
  }

  /** Parse a whole token sequence as the analyser's driver does: prime the
      lookahead on the first token and parse a statement part. */
  method Run(input: seq<Token>) returns (trace: seq<Event>, err: Option<Error>)
    requires WellFormed(input)
    ensures var r := Productions.Parse(input); trace == r.c.trace && err == r.Raised()
  {
    var analyser := new SyntaxAnalyser(input);
    err := analyser.StatementPart();
    trace := analyser.trace;
  }
}
