// Arithmetic expressions as trees of the grammar the analyser follows, with
// the tokens each tree is written as and the events the analyser sends for
// it. The expression production accepts exactly the token runs of these
// trees and sends exactly their events: additive and multiplicative chains
// come out nested to the right.
module ExpressionTrees {
  import opened Tokens
  import opened Trace
  import opened Outcomes
  import opened Productions

  /** Term, optionally followed by '+' or '-' and a whole expression. */
  datatype ExprTree = Sum(left: TermTree, op: Token, right: ExprTree) | Plain(term: TermTree)

  /** Factor, optionally followed by '*', '/' or 'mod' and a whole term. */
  datatype TermTree = Product(left: FactorTree, op: Token, right: TermTree) | Simple(factor: FactorTree)

  /** An identifier or number, or a parenthesised expression. */
  datatype FactorTree = Atom(tok: Token) | Paren(open: Token, inner: ExprTree, close: Token)

  /** The number of tokens a tree is written with. */
  function ExprSize(e: ExprTree): nat {
    match e
    case Sum(l, _, r) => TermSize(l) + 1 + ExprSize(r)
    case Plain(t) => TermSize(t)
  }

  function TermSize(t: TermTree): nat {
    match t
    case Product(l, _, r) => FactorSize(l) + 1 + TermSize(r)
    case Simple(f) => FactorSize(f)
  }

  function FactorSize(f: FactorTree): nat {
    match f
    case Atom(_) => 1
    case Paren(_, e, _) => 1 + ExprSize(e) + 1
  }

  /** The tokens from index `i` on are the tree `e`, and its operators and
      operands are of the kinds the grammar allows there. */
  predicate ExprAt(toks: seq<Token>, i: nat, e: ExprTree)
    decreases e
  {
    match e
    case Sum(l, op, r) =>
      TermAt(toks, i, l) && i + TermSize(l) < |toks| && toks[i + TermSize(l)] == op &&
      IsAdditive(op.kind) && ExprAt(toks, i + TermSize(l) + 1, r)
    case Plain(t) => TermAt(toks, i, t)
  }

  predicate TermAt(toks: seq<Token>, i: nat, t: TermTree)
    decreases t
  {
    match t
    case Product(l, op, r) =>
      FactorAt(toks, i, l) && i + FactorSize(l) < |toks| && toks[i + FactorSize(l)] == op &&
      IsMultiplicative(op.kind) && TermAt(toks, i + FactorSize(l) + 1, r)
    case Simple(f) => FactorAt(toks, i, f)
  }

  predicate FactorAt(toks: seq<Token>, i: nat, f: FactorTree)
    decreases f
  {
    i < |toks| &&
    match f
    case Atom(tok) => toks[i] == tok && (tok.kind == Identifier || tok.kind == NumberConstant)
    case Paren(o, e, c) =>
      toks[i] == o && o.kind == LeftParen && ExprAt(toks, i + 1, e) &&
      i + 1 + ExprSize(e) < |toks| && toks[i + 1 + ExprSize(e)] == c && c.kind == RightParen
  }

  /** The sink after it has been sent the events of a tree on top of `tr`:
      each Expression, Term and Factor node is bracketed by its Commence and
      Finish events, with its tokens as Terminal events in between. */
  function ExprEmit(tr: seq<Event>, e: ExprTree): seq<Event>
    decreases e
  {
    match e
    case Sum(l, op, r) =>
      ExprEmit(TermEmit(tr + [Commence("Expression")], l) + [Terminal(op)], r) + [Finish("Expression")]
    case Plain(t) =>
      TermEmit(tr + [Commence("Expression")], t) + [Finish("Expression")]
  }

  function TermEmit(tr: seq<Event>, t: TermTree): seq<Event>
    decreases t
  {
    match t
    case Product(l, op, r) =>
      TermEmit(FactorEmit(tr + [Commence("Term")], l) + [Terminal(op)], r) + [Finish("Term")]
    case Simple(f) =>
      FactorEmit(tr + [Commence("Term")], f) + [Finish("Term")]
  }

  function FactorEmit(tr: seq<Event>, f: FactorTree): seq<Event>
    decreases f
  {
    match f
    case Atom(tok) =>
      tr + [Commence("Factor")] + [Terminal(tok)] + [Finish("Factor")]
    case Paren(o, e, c) =>
      ExprEmit(tr + [Commence("Factor")] + [Terminal(o)], e) + [Terminal(c)] + [Finish("Factor")]
  }

  /** One identifier or number is a whole factor. */
  lemma FactorAtomStep(toks: seq<Token>, st: Cursor)
    requires InBounds(toks, st) && (Look(toks, st) == Identifier || Look(toks, st) == NumberConstant)
    ensures Factor(toks, st) ==
      Ok(Cursor(st.pos + 1, st.trace + [Commence("Factor")] + [Terminal(toks[st.pos])] + [Finish("Factor")]))
  {
    var s0 := st.Emit(Commence("Factor"));
    assert Accept(toks, s0, Look(toks, s0)) == Ok(Cursor(st.pos + 1, s0.trace + [Terminal(toks[st.pos])]));
  }

  /** A parenthesised expression is a whole factor. */
  lemma FactorParenStep(toks: seq<Token>, st: Cursor, b: Cursor)
    requires InBounds(toks, st) && Look(toks, st) == LeftParen
    requires Expression(toks, Cursor(st.pos + 1, st.trace + [Commence("Factor")] + [Terminal(toks[st.pos])])) == Ok(b)
    requires b.pos < |toks| && toks[b.pos].kind == RightParen
    ensures Factor(toks, st) == Ok(Cursor(b.pos + 1, b.trace + [Terminal(toks[b.pos])] + [Finish("Factor")]))
  {
    var s0 := st.Emit(Commence("Factor"));
    var a := Cursor(st.pos + 1, s0.trace + [Terminal(toks[st.pos])]);
    assert Accept(toks, s0, LeftParen) == Ok(a);
    assert Accept(toks, b, RightParen) == Ok(Cursor(b.pos + 1, b.trace + [Terminal(toks[b.pos])]));
  }

  /** A term is a factor followed by the loop of Term. */
  lemma TermStep(toks: seq<Token>, st: Cursor, s1: Cursor, b: Cursor)
    requires InBounds(toks, st)
    requires Factor(toks, Cursor(st.pos, st.trace + [Commence("Term")])) == Ok(s1)
    requires TermTail(toks, s1) == Ok(b)
    ensures Term(toks, st) == Ok(Cursor(b.pos, b.trace + [Finish("Term")]))
  {
  }

  /** An expression is a term followed by the loop of Expression. */
  lemma ExpressionStep(toks: seq<Token>, st: Cursor, s1: Cursor, b: Cursor)
    requires InBounds(toks, st)
    requires Term(toks, Cursor(st.pos, st.trace + [Commence("Expression")])) == Ok(s1)
    requires ExpressionTail(toks, s1) == Ok(b)
    ensures Expression(toks, st) == Ok(Cursor(b.pos, b.trace + [Finish("Expression")]))
  {
  }

  /** The loop of Term stops at once when no multiplicative operator is next. */
  lemma TermTailStop(toks: seq<Token>, st: Cursor)
    requires InBounds(toks, st) && !IsMultiplicative(Look(toks, st))
    ensures TermTail(toks, st) == Ok(st)
  {
  }

  lemma ExpressionTailStop(toks: seq<Token>, st: Cursor)
    requires InBounds(toks, st) && !IsAdditive(Look(toks, st))
    ensures ExpressionTail(toks, st) == Ok(st)
  {
  }

  /** The loop of Term runs its body at most once: the nested Term already
      consumes the rest of the multiplicative chain, so the re-test fails. */
  lemma TermTailOnce(toks: seq<Token>, st: Cursor)
    requires InBounds(toks, st) && IsMultiplicative(Look(toks, st))
    ensures TermTail(toks, st) == Term(toks, Cursor(st.pos + 1, st.trace + [Terminal(toks[st.pos])]))
  {
    var s1 := Cursor(st.pos + 1, st.trace + [Terminal(toks[st.pos])]);
    assert Accept(toks, st, Look(toks, st)) == Ok(s1);
    var b := Term(toks, s1);
    if b.Ok? {
      TermTailStop(toks, b.c);
    }
  }

  /** The loop of Expression likewise runs its body at most once. */
  lemma ExpressionTailOnce(toks: seq<Token>, st: Cursor)
    requires InBounds(toks, st) && IsAdditive(Look(toks, st))
    ensures ExpressionTail(toks, st) == Expression(toks, Cursor(st.pos + 1, st.trace + [Terminal(toks[st.pos])]))
  {
    var s1 := Cursor(st.pos + 1, st.trace + [Terminal(toks[st.pos])]);
    assert Accept(toks, st, Look(toks, st)) == Ok(s1);
    var b := Expression(toks, s1);
    if b.Ok? {
      ExpressionTailStop(toks, b.c);
    }
  }

  /** One pass of the loop of Term: an operator and a whole term. */
  lemma TermTailStep(toks: seq<Token>, st: Cursor, b: Cursor, c: Cursor)
    requires InBounds(toks, st) && IsMultiplicative(Look(toks, st))
    requires Term(toks, Cursor(st.pos + 1, st.trace + [Terminal(toks[st.pos])])) == Ok(b)
    requires TermTail(toks, b) == Ok(c)
    ensures TermTail(toks, st) == Ok(c)
  {
    assert Accept(toks, st, Look(toks, st)) == Ok(Cursor(st.pos + 1, st.trace + [Terminal(toks[st.pos])]));
  }

  lemma ExpressionTailStep(toks: seq<Token>, st: Cursor, b: Cursor, c: Cursor)
    requires InBounds(toks, st) && IsAdditive(Look(toks, st))
    requires Expression(toks, Cursor(st.pos + 1, st.trace + [Terminal(toks[st.pos])])) == Ok(b)
    requires ExpressionTail(toks, b) == Ok(c)
    ensures ExpressionTail(toks, st) == Ok(c)
  {
    assert Accept(toks, st, Look(toks, st)) == Ok(Cursor(st.pos + 1, st.trace + [Terminal(toks[st.pos])]));
  }

  /** A factor tree written at the lookahead is accepted whole. */
  lemma {:induction false} FactorAccepts(toks: seq<Token>, st: Cursor, f: FactorTree)
    requires InBounds(toks, st) && FactorAt(toks, st.pos, f) && st.pos + FactorSize(f) < |toks|
    ensures Factor(toks, st) == Ok(Cursor(st.pos + FactorSize(f), FactorEmit(st.trace, f)))
    decreases f, 0
  {
    match f
    case Atom(tok) =>
      FactorAtomStep(toks, st);
    case Paren(o, e, c) =>
      var a := Cursor(st.pos + 1, st.trace + [Commence("Factor")] + [Terminal(toks[st.pos])]);
      assert toks[a.pos + ExprSize(e)].kind == RightParen;
      ExprAccepts(toks, a, e);
      FactorParenStep(toks, st, Cursor(a.pos + ExprSize(e), ExprEmit(a.trace, e)));
  }

  /** A term tree written at the lookahead and not followed by a
      multiplicative operator is accepted whole. */
  lemma {:induction false} TermAccepts(toks: seq<Token>, st: Cursor, t: TermTree)
    requires InBounds(toks, st) && TermAt(toks, st.pos, t) && st.pos + TermSize(t) < |toks|
    requires !IsMultiplicative(toks[st.pos + TermSize(t)].kind)
    ensures Term(toks, st) == Ok(Cursor(st.pos + TermSize(t), TermEmit(st.trace, t)))
    decreases t, 1
  {
    var s0 := Cursor(st.pos, st.trace + [Commence("Term")]);
    match t
    case Simple(f) =>
      var s1 := Cursor(st.pos + FactorSize(f), FactorEmit(s0.trace, f));
      assert s1.pos == st.pos + TermSize(t) && TermEmit(st.trace, t) == s1.trace + [Finish("Term")];
      TermTailStop(toks, s1);
      FactorAccepts(toks, s0, f);
      TermStep(toks, st, s1, s1);
    case Product(l, op, r) =>
      var i := st.pos + FactorSize(l) + 1;
      var s1 := Cursor(st.pos + FactorSize(l), FactorEmit(s0.trace, l));
      var a := Cursor(i, s1.trace + [Terminal(op)]);
      var b := Cursor(i + TermSize(r), TermEmit(a.trace, r));
      assert toks[s1.pos] == op && b.pos == st.pos + TermSize(t);
      assert TermEmit(st.trace, t) == b.trace + [Finish("Term")];
      TermTailStop(toks, b);
      TermAccepts(toks, a, r);
      FactorAccepts(toks, s0, l);
      TermTailStep(toks, s1, b, b);
      TermStep(toks, st, s1, b);
  }

  /** An expression tree written at the lookahead and followed by neither an
      additive nor a multiplicative operator is accepted whole, and the sink
      receives exactly the tree's events. */
  lemma {:induction false} ExprAccepts(toks: seq<Token>, st: Cursor, e: ExprTree)
    requires InBounds(toks, st) && ExprAt(toks, st.pos, e) && st.pos + ExprSize(e) < |toks|
    requires !IsAdditive(toks[st.pos + ExprSize(e)].kind) && !IsMultiplicative(toks[st.pos + ExprSize(e)].kind)
    ensures Expression(toks, st) == Ok(Cursor(st.pos + ExprSize(e), ExprEmit(st.trace, e)))
    decreases e, 2
  {
    var s0 := Cursor(st.pos, st.trace + [Commence("Expression")]);
    match e
    case Plain(t) =>
      var s1 := Cursor(st.pos + TermSize(t), TermEmit(s0.trace, t));
      assert s1.pos == st.pos + ExprSize(e) && ExprEmit(st.trace, e) == s1.trace + [Finish("Expression")];
      ExpressionTailStop(toks, s1);
      TermAccepts(toks, s0, t);
      ExpressionStep(toks, st, s1, s1);
    case Sum(l, op, r) =>
      var i := st.pos + TermSize(l) + 1;
      var s1 := Cursor(st.pos + TermSize(l), TermEmit(s0.trace, l));
      var a := Cursor(i, s1.trace + [Terminal(op)]);
      var b := Cursor(i + ExprSize(r), ExprEmit(a.trace, r));
      assert toks[s1.pos] == op && b.pos == st.pos + ExprSize(e);
      assert ExprEmit(st.trace, e) == b.trace + [Finish("Expression")];
      ExpressionTailStop(toks, b);
      ExprAccepts(toks, a, r);
      TermAccepts(toks, s0, l);
      ExpressionTailStep(toks, s1, b, b);
      ExpressionStep(toks, st, s1, b);
  }
}
