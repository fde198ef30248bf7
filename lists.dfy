// How a statement list ends. The loop in the statement-list production
// re-tests its condition after each pass, but a pass only ends normally at
// 'end' or 'else' (directly, or after the recursive list behind a ';'), so
// the loop never runs twice.
module ListLemmas {
  import opened Tokens
  import opened Trace
  import opened Outcomes
  import opened Productions

  /** A statement list that returns normally leaves a lookahead that ends
      lists: 'end', 'else' or end-of-input. */
  lemma {:induction false} StatementListStops(toks: seq<Token>, st: Cursor)
    requires InBounds(toks, st)
    ensures var r := StatementList(toks, st); r.Ok? ==> EndsList(Look(toks, r.c))
    decreases |toks| - st.pos
  {
    if EndsList(Look(toks, st)) { return; }
    var r1 := Statement(toks, st.Emit(Commence("StatementList")));
    if r1.Fail? { return; }
    var r2 := Separator(toks, r1.c);
    if r2.Fail? { return; }
    StatementListStops(toks, r2.c.Emit(Finish("StatementList")));
  }

  /** A separator that lets the list go on leaves a lookahead that ends
      lists. */
  lemma SeparatorStops(toks: seq<Token>, st: Cursor)
    requires InBounds(toks, st)
    ensures var r := Separator(toks, st); r.Ok? ==> EndsList(Look(toks, r.c))
  {
    if Look(toks, st) == Semicolon {
      var a := Accept(toks, st, Semicolon);
      if a.Ok? {
        StatementListStops(toks, a.c);
      }
    }
  }

  /** The list returns at once, consuming and emitting nothing, exactly when
      the lookahead is 'end', 'else' or end-of-input. */
  lemma StatementListEmpty(toks: seq<Token>, st: Cursor)
    requires InBounds(toks, st)
    ensures StatementList(toks, st) == Ok(st) <==> EndsList(Look(toks, st))
  {
    if !EndsList(Look(toks, st)) {
      var r1 := Statement(toks, st.Emit(Commence("StatementList")));
      if r1.Ok? {
        var r2 := Separator(toks, r1.c);
        if r2.Ok? {
          var r3 := StatementList(toks, r2.c.Emit(Finish("StatementList")));
          assert st.pos < r1.c.pos <= r2.c.pos <= r3.c.pos;
        }
      }
    }
  }

  /** The loop body runs at most once: one StatementList is commenced, one
      statement parsed, its separator handled, the StatementList finished,
      and the re-test of the loop condition then fails. */
  lemma StatementListOnce(toks: seq<Token>, st: Cursor)
    requires InBounds(toks, st) && !EndsList(Look(toks, st))
    ensures StatementList(toks, st) ==
      (var s1 :- Statement(toks, st.Emit(Commence("StatementList")));
       var s2 :- Separator(toks, s1);
       Ok(s2.Emit(Finish("StatementList"))))
  {
    var r1 := Statement(toks, st.Emit(Commence("StatementList")));
    if r1.Fail? { return; }
    var r2 := Separator(toks, r1.c);
    if r2.Fail? { return; }
    SeparatorStops(toks, r1.c);
    var s3 := r2.c.Emit(Finish("StatementList"));
    assert StatementList(toks, s3) == Ok(s3);
  }

  /** What decides the list once a statement has been parsed: ';' goes on
      with a nested list, 'end' or 'else' closes the list, and any other
      lookahead (end-of-input included) is a missing separator reported at
      that token. */
  lemma StatementListAfterStatement(toks: seq<Token>, st: Cursor, s1: Cursor)
    requires InBounds(toks, st) && !EndsList(Look(toks, st))
    requires Statement(toks, st.Emit(Commence("StatementList"))) == Ok(s1)
    ensures Look(toks, s1) == End || Look(toks, s1) == Else ==>
      StatementList(toks, st) == Ok(s1.Emit(Finish("StatementList")))
    ensures Look(toks, s1) != End && Look(toks, s1) != Else && Look(toks, s1) != Semicolon ==>
      StatementList(toks, st) == Fail(s1, MissingSeparator)
    ensures Look(toks, s1) == Semicolon ==>
      StatementList(toks, st) ==
        (var s2 :- StatementList(toks, Cursor(s1.pos + 1, s1.trace + [Terminal(toks[s1.pos])]));
         Ok(s2.Emit(Finish("StatementList"))))
  {
    StatementListOnce(toks, st);
    var k := Look(toks, s1);
    if k == Semicolon {
      assert Accept(toks, s1, Semicolon) == Ok(Cursor(s1.pos + 1, s1.trace + [Terminal(toks[s1.pos])]));
    } else if k == End || k == Else {
      assert Separator(toks, s1) == Ok(s1);
    } else {
      assert Separator(toks, s1) == Fail(s1, MissingSeparator);
    }
  }
}
