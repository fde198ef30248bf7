// The events the syntax analyser sends to its tree sink, in order.
module Trace {
  import opened Tokens

  /** One notification to the tree sink. Nonterminals are named by the same
      strings the analyser passes ("StatementPart", "IfStatement", ...). */
  datatype Event =
    | Commence(name: string)
    | Terminal(tok: Token)
    | Finish(name: string)

  /** The tokens carried by the terminal events of a trace, in order. */
  function Terminals(es: seq<Event>): (r: seq<Token>)
    ensures |r| <= |es|
  {
    if es == [] then []
    else
      var last := es[|es| - 1];
      Terminals(es[..|es| - 1]) + (if last.Terminal? then [last.tok] else [])
  }

  /** No token of the sequence marks the end of input. */
  predicate NoEof(ts: seq<Token>) {
    ts == [] || (NoEof(ts[..|ts| - 1]) && ts[|ts| - 1].kind != Eof)
  }

  lemma TerminalsSnoc(es: seq<Event>, e: Event)
    ensures Terminals(es + [e]) == Terminals(es) + (if e.Terminal? then [e.tok] else [])
  {
    assert (es + [e])[..|es|] == es;
  }

  /** The trace's last events are `tail`. */
  predicate EndsWith(es: seq<Event>, tail: seq<Event>) {
    |tail| <= |es| && es[|es| - |tail|..] == tail
  }

  /** The number of Commence events minus the number of Finish events. */
  function Depth(es: seq<Event>): int {
    if es == [] then 0
    else
      var last := es[|es| - 1];
      Depth(es[..|es| - 1]) + (match last
                               case Commence(_) => 1
                               case Finish(_) => -1
                               case Terminal(_) => 0)
  }

  /** One more event changes the depth by that event's own weight. */
  lemma DepthSnoc(es: seq<Event>, e: Event)
    ensures Depth(es + [e]) == Depth(es) + (if e.Commence? then 1 else if e.Finish? then -1 else 0)
  {
    assert (es + [e])[..|es|] == es;
  }
}
