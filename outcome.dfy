// The state the analyser threads through its productions, and how a
// production ends: normally, or by reporting an error (which always throws).
module Outcomes {
  import opened Tokens
  import opened Trace

  /** Why a parse was abandoned; each names one `reportError` call site. */
  datatype Error =
    | Expected(kind: Kind)        // acceptTerminal found another kind
    | MissingSeparator            // neither ';' nor 'end' after a statement
    | ElseWithoutIf               // a statement starts with 'else'
    | UnknownStatement            // no statement starts with this token
    | MissingArgumentAfterComma   // ',' in an argument list not followed by an identifier
    | MissingArgument             // '(' followed by neither ')' nor an identifier
    | MissingComparison           // no relational operator in a condition
    | MissingFactor               // no identifier, number or '(' where a factor starts

  /** The analyser's state: the index of the lookahead token (`nextToken`)
      in the token sequence, and everything sent to the sink so far. */
  datatype Cursor = Cursor(pos: nat, trace: seq<Event>) {
    /** Send one event to the sink without moving the lookahead. */
    function Emit(e: Event): (r: Cursor)
      ensures r.pos == pos && r.trace == trace + [e]
    {
      Cursor(pos, trace + [e])
    }
  }

  /** A production either returns normally, or fails at the token the cursor
      then points at; either way the sink keeps what it was already sent. */
  datatype Outcome = Ok(c: Cursor) | Fail(c: Cursor, err: Error) {
    predicate IsFailure() {
      Fail?
    }

    function PropagateFailure(): Outcome {
      this
    }

    function Extract(): Cursor
      requires Ok?
    {
      c
    }

    /** The error the analyser raised, if any. */
    function Raised(): Option<Error> {
      if Fail? then Some(err) else None
    }
  }

  datatype Option<T> = None | Some(value: T)

  /** The lookahead token's kind. */
  function Look(toks: seq<Token>, c: Cursor): Kind
    requires c.pos < |toks|
  {
    toks[c.pos].kind
  }

  /** The lookahead token exists: the cursor has not run off the end of the
      token sequence. */
  predicate InBounds(toks: seq<Token>, c: Cursor) {
    WellFormed(toks) && c.pos < |toks|
  }

  /** What every production guarantees of the cursor: it only moves forward,
      and it stays on a token. */
  predicate Moves(toks: seq<Token>, st: Cursor, r: Outcome) {
    InBounds(toks, r.c) && st.pos <= r.c.pos
  }

  /** The analyser's invariant: the lookahead exists, the sink has been sent
      exactly the tokens consumed so far, and none of them is end-of-input. */
  predicate Synced(toks: seq<Token>, c: Cursor) {
    WellFormed(toks) && c.pos < |toks| && Terminals(c.trace) == toks[..c.pos] &&
    NoEof(Terminals(c.trace))
  }

  /** The token an error is reported at really is one the grammar forbids there. */
  predicate Justified(toks: seq<Token>, at: nat, err: Error)
    requires at < |toks|
  {
    var k := toks[at].kind;
    match err
    case Expected(want) => k != want
    case MissingSeparator => k != Semicolon && k != End && k != Else
    case ElseWithoutIf => k == Else
    case UnknownStatement => !StartsStatement(k) && k != Else
    case MissingArgumentAfterComma => k != Identifier
    case MissingArgument => k != Identifier && k != RightParen
    case MissingComparison => !IsRelational(k)
    case MissingFactor => k != Identifier && k != NumberConstant && k != LeftParen
  }

  /** What every production guarantees of the sink: the invariant still
      holds, the sink only receives new events, and a failure is reported at
      a token that justifies it. */
  predicate Advances(toks: seq<Token>, st: Cursor, r: Outcome) {
    Synced(toks, r.c) && st.pos <= r.c.pos && st.trace <= r.c.trace &&
    (r.Fail? ==> Justified(toks, r.c.pos, r.err))
  }
}
