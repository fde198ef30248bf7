// Conditions and argument lists: the exact token shapes they accept and the
// events they send, including the empty argument list whose ArgumentList
// nonterminal is commenced but never finished.
module ArgumentLemmas {
  import opened Tokens
  import opened Trace
  import opened Outcomes
  import opened Productions

  /** A condition is accepted exactly when it is an identifier, a relational
      operator and a number; it then consumes those three tokens and sends
      them inside Condition and ConditionalOperator events. */
  lemma ConditionShape(toks: seq<Token>, st: Cursor)
    requires InBounds(toks, st)
    ensures var r := Condition(toks, st);
      r.Ok? <==> (st.pos + 2 < |toks| && toks[st.pos].kind == Identifier &&
                  IsRelational(toks[st.pos + 1].kind) && toks[st.pos + 2].kind == NumberConstant)
    ensures var r := Condition(toks, st);
      r.Ok? ==> r.c == Cursor(st.pos + 3, st.trace + [Commence("Condition"), Terminal(toks[st.pos]),
                                                      Commence("ConditionalOperator"), Terminal(toks[st.pos + 1]),
                                                      Finish("ConditionalOperator"), Terminal(toks[st.pos + 2]),
                                                      Finish("Condition")])
  {
    var s0 := st.Emit(Commence("Condition"));
    var r1 := Accept(toks, s0, Identifier);
    if r1.Fail? { return; }
    var r2 := ConditionalOperator(toks, r1.c);
    if r2.Fail? { return; }
    assert r2.c == Cursor(st.pos + 2, r1.c.trace + [Commence("ConditionalOperator"), Terminal(toks[st.pos + 1]),
                                                    Finish("ConditionalOperator")]);
  }

  /** An identifier on the right of a relational operator is rejected: the
      analyser reports that it expected a number, at that identifier. */
  lemma ConditionRejectsIdentifier(toks: seq<Token>, st: Cursor)
    requires InBounds(toks, st) && st.pos + 2 < |toks|
    requires toks[st.pos].kind == Identifier && IsRelational(toks[st.pos + 1].kind)
    requires toks[st.pos + 2].kind == Identifier
    ensures var r := Condition(toks, st);
      r.Fail? && r.c.pos == st.pos + 2 && r.err == Expected(NumberConstant)
  {
    var s0 := st.Emit(Commence("Condition"));
    var r1 := Accept(toks, s0, Identifier);
    var r2 := ConditionalOperator(toks, r1.c);
    assert r2.Ok? && r2.c.pos == st.pos + 2;
  }

  /** `( )`: both parentheses are consumed, and ArgumentList is commenced
      between them and never finished, so the sink is left one nonterminal
      deeper than before. */
  lemma ArgumentListEmpty(toks: seq<Token>, st: Cursor)
    requires InBounds(toks, st) && Look(toks, st) == LeftParen
    requires toks[st.pos + 1].kind == RightParen
    ensures ArgumentList(toks, st) ==
      Ok(Cursor(st.pos + 2, st.trace + [Terminal(toks[st.pos]), Commence("ArgumentList"), Terminal(toks[st.pos + 1])]))
    ensures Depth(ArgumentList(toks, st).c.trace) == Depth(st.trace) + 1
  {
    var s1 := Cursor(st.pos + 1, st.trace + [Terminal(toks[st.pos])]);
    var s2 := s1.Emit(Commence("ArgumentList"));
    assert ArgumentList(toks, st) == Accept(toks, s2, RightParen);
    DepthSnoc(st.trace, Terminal(toks[st.pos]));
    DepthSnoc(s1.trace, Commence("ArgumentList"));
    DepthSnoc(s2.trace, Terminal(toks[st.pos + 1]));
  }

  /** Otherwise the first argument must be an identifier; any other token
      there is reported, after ArgumentList has been commenced. */
  lemma ArgumentListMissing(toks: seq<Token>, st: Cursor)
    requires InBounds(toks, st) && Look(toks, st) == LeftParen
    requires toks[st.pos + 1].kind != RightParen && toks[st.pos + 1].kind != Identifier
    ensures ArgumentList(toks, st) ==
      Fail(Cursor(st.pos + 1, st.trace + [Terminal(toks[st.pos]), Commence("ArgumentList")]), MissingArgument)
  {
  }

  /** A non-empty argument list that is accepted is '(' identifier ... ')',
      and ArgumentList is finished before the ')' is consumed. */
  lemma ArgumentListCloses(toks: seq<Token>, st: Cursor)
    requires InBounds(toks, st)
    requires !(Look(toks, st) == LeftParen && toks[st.pos + 1].kind == RightParen)
    ensures var r := ArgumentList(toks, st);
      r.Ok? ==> st.pos + 3 <= r.c.pos && toks[st.pos].kind == LeftParen &&
                toks[st.pos + 1].kind == Identifier && toks[r.c.pos - 1].kind == RightParen &&
                CommaIdentifiers(toks, st.pos + 2, r.c.pos - 1) &&
                EndsWith(r.c.trace, [Finish("ArgumentList"), Terminal(toks[r.c.pos - 1])])
  {
    var r1 := Accept(toks, st, LeftParen);
    if r1.Fail? { return; }
    var s2 := r1.c.Emit(Commence("ArgumentList"));
    if Look(toks, s2) != Identifier { return; }
    var a := Accept(toks, s2, Identifier);
    var r3 := ArgumentTail(toks, a.c);
    if r3.Fail? { return; }
    ArgumentTailOnlyPairs(toks, a.c);
    var s4 := r3.c.Emit(Finish("ArgumentList"));
    var r5 := Accept(toks, s4, RightParen);
    if r5.Fail? { return; }
    assert r5.c.trace == r3.c.trace + [Finish("ArgumentList"), Terminal(toks[r3.c.pos])];
  }

  /** Conversely, every '(' identifier {',' identifier} ')' is accepted
      whole: ArgumentList is commenced after the '(', the identifiers and
      commas are sent in order, and ArgumentList is finished before the ')'. */
  lemma ArgumentListAccepts(toks: seq<Token>, st: Cursor, j: nat)
    requires InBounds(toks, st) && st.pos + 2 <= j < |toks|
    requires Look(toks, st) == LeftParen && toks[st.pos + 1].kind == Identifier
    requires CommaIdentifiers(toks, st.pos + 2, j) && toks[j].kind == RightParen
    ensures ArgumentList(toks, st) ==
      Ok(Cursor(j + 1, st.trace + [Terminal(toks[st.pos]), Commence("ArgumentList"), Terminal(toks[st.pos + 1])] +
                       TerminalRun(toks, st.pos + 2, j) + [Finish("ArgumentList"), Terminal(toks[j])]))
  {
    var a := Cursor(st.pos + 2, st.trace + [Terminal(toks[st.pos]), Commence("ArgumentList"), Terminal(toks[st.pos + 1])]);
    var s2 := Cursor(st.pos + 1, st.trace + [Terminal(toks[st.pos])]).Emit(Commence("ArgumentList"));
    assert Accept(toks, s2, Identifier) == Ok(a);
    ArgumentTailAccepts(toks, a, j);
    assert a.trace + TerminalRun(toks, st.pos + 2, j) + [Finish("ArgumentList"), Terminal(toks[j])] ==
      st.trace + [Terminal(toks[st.pos]), Commence("ArgumentList"), Terminal(toks[st.pos + 1])] +
      TerminalRun(toks, st.pos + 2, j) + [Finish("ArgumentList"), Terminal(toks[j])];
  }

  /** The tokens from `i` up to `j` are pairs of ',' and an identifier. */
  predicate CommaIdentifiers(toks: seq<Token>, i: nat, j: nat)
    decreases j - i
  {
    i == j ||
    (i + 2 <= j <= |toks| && toks[i].kind == Comma && toks[i + 1].kind == Identifier &&
     CommaIdentifiers(toks, i + 2, j))
  }

  /** Terminal events for the tokens from `i` up to `j`, in order. */
  function TerminalRun(toks: seq<Token>, i: nat, j: nat): (r: seq<Event>)
    requires i <= j <= |toks|
    ensures |r| == j - i
    decreases j - i
  {
    if i == j then [] else [Terminal(toks[i])] + TerminalRun(toks, i + 1, j)
  }

  /** One pass of the loop over further arguments: a ',' and an identifier
      are consumed and sent to the sink, and the loop goes on. */
  lemma ArgumentTailPair(toks: seq<Token>, st: Cursor)
    requires InBounds(toks, st) && Look(toks, st) == Comma && toks[st.pos + 1].kind == Identifier
    ensures ArgumentTail(toks, st) ==
      ArgumentTail(toks, Cursor(st.pos + 2, st.trace + [Terminal(toks[st.pos]), Terminal(toks[st.pos + 1])]))
  {
    var s1 := Cursor(st.pos + 1, st.trace + [Terminal(toks[st.pos])]);
    assert Accept(toks, s1, Identifier).c.trace == st.trace + [Terminal(toks[st.pos]), Terminal(toks[st.pos + 1])];
  }

  /** The loop over further arguments accepts exactly a run of
      ',' identifier pairs that is not followed by another ','. */
  lemma {:induction false} ArgumentTailAccepts(toks: seq<Token>, st: Cursor, j: nat)
    requires InBounds(toks, st) && st.pos <= j < |toks|
    requires CommaIdentifiers(toks, st.pos, j) && toks[j].kind != Comma
    ensures ArgumentTail(toks, st) == Ok(Cursor(j, st.trace + TerminalRun(toks, st.pos, j)))
    decreases j - st.pos
  {
    if st.pos == j {
      assert st.trace + TerminalRun(toks, st.pos, j) == st.trace;
    } else {
      assert toks[st.pos].kind == Comma && toks[st.pos + 1].kind == Identifier && CommaIdentifiers(toks, st.pos + 2, j);
      var pair := [Terminal(toks[st.pos]), Terminal(toks[st.pos + 1])];
      ArgumentTailPair(toks, st);
      ArgumentTailAccepts(toks, Cursor(st.pos + 2, st.trace + pair), j);
      assert TerminalRun(toks, st.pos, j) == pair + TerminalRun(toks, st.pos + 2, j);
      assert (st.trace + pair) + TerminalRun(toks, st.pos + 2, j) == st.trace + TerminalRun(toks, st.pos, j);
    }
  }

  /** Whatever the loop over further arguments accepts is such a run, and it
      can only fail at the token right after a ','. */
  lemma {:induction false} ArgumentTailOnlyPairs(toks: seq<Token>, st: Cursor)
    requires InBounds(toks, st)
    ensures var r := ArgumentTail(toks, st);
      r.Ok? ==> CommaIdentifiers(toks, st.pos, r.c.pos) && Look(toks, r.c) != Comma
    ensures var r := ArgumentTail(toks, st);
      r.Fail? ==> st.pos < r.c.pos && CommaIdentifiers(toks, st.pos, r.c.pos - 1) &&
                  toks[r.c.pos - 1].kind == Comma && r.err == MissingArgumentAfterComma
    decreases |toks| - st.pos
  {
    if Look(toks, st) == Comma {
      var s1 := Cursor(st.pos + 1, st.trace + [Terminal(toks[st.pos])]);
      if Look(toks, s1) == Identifier {
        var s2 := Cursor(st.pos + 2, s1.trace + [Terminal(toks[st.pos + 1])]);
        assert ArgumentTail(toks, st) == ArgumentTail(toks, s2);
        ArgumentTailOnlyPairs(toks, s2);
      }
    }
  }
}
