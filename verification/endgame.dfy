/** How a game ends (src/solitare/state.rs: get_final_state): on a game in which the
    invariant holds, the state is won exactly when the four foundations are full. */
module Endgame {
  import opened Seqs
  import opened Cards
  import opened Games
  import opened State
  import opened MoveGen
  import opened Safety

  predicate AllFull(g: Game)
    requires Shaped(g)
  {
    forall k :: 0 <= k < 4 ==> IsFull(g.aces[k])
  }

  /** A full foundation holds every card of its suit. */
  lemma FullFoundationHolds(g: Game, c: Card)
    requires Valid(g) && AllFull(g) && IsDeckCard(c)
    ensures c in g.aces[c.suitIndex]
  {
    assert g.aces[c.suitIndex][c.number - 1] == c;
  }

  /** Full foundations hold the whole deck, so no card is left anywhere else. */
  lemma FullFoundationsLeaveNothing(g: Game)
    requires Valid(g) && AllFull(g)
    ensures forall s :: 0 <= s < 7 ==> IsVacant(g.table[s])
    ensures |g.draw| == 0
  {
    forall s | 0 <= s < 7
      ensures IsVacant(g.table[s])
    {
      var st := g.table[s];
      if |st.downturned| > 0 {
        var c := st.downturned[0];
        assert c in StackCards(st);
        TotalContains(g.table, s, StackCards);
        DeckCard(g, c);
        FullFoundationHolds(g, c);
        TableCardNotOnFoundation(g, s, c, c.suitIndex);
        assert false;
      }
      if |st.upturned| > 0 {
        var c := st.upturned[0];
        UpCard(g, s, 0);
        FullFoundationHolds(g, c);
        TableCardNotOnFoundation(g, s, c, c.suitIndex);
        assert false;
      }
    }
    if |g.draw| > 0 {
      var c := g.draw[0];
      DrawCard(g, 0);
      FullFoundationHolds(g, c);
      DrawCardNotOnFoundation(g, 0, c.suitIndex);
      assert false;
    }
  }

  /** Nothing is left outside the foundations: every stack is vacant and the draw pile
      is empty. */
  predicate Cleared(g: Game) {
    Shaped(g) && |g.draw| == 0 && forall s :: 0 <= s < 7 ==> IsVacant(g.table[s])
  }

  lemma ClearedNoFlips(g: Game)
    requires Cleared(g)
    ensures TableFlipMoves(g) == []
  {
    ConcatEmpty(0, 7, FlipAt(g.table));
  }

  lemma ClearedNoTableAces(g: Game)
    requires Cleared(g)
    ensures TableAceMoves(g) == []
  {
    ConcatEmpty(0, 7, TableAceAt(g.table));
  }

  lemma ClearedNoKings(g: Game)
    requires Cleared(g)
    ensures TableKingMoves(g).0 == []
  {
    ConcatEmpty(0, 7, TableKingAt(g.table));
  }

  lemma ClearedNoPromotions(g: Game)
    requires Cleared(g)
    ensures AceStackMoves(g) == []
  {
    ConcatEmpty(0, 7, AceStackTableAt(g.table, AceMap(g.aces)));
  }

  lemma ClearedNoTableMoves(g: Game)
    requires Cleared(g)
    ensures TableMoves(g, Targets(g.table)) == []
  {
    ConcatEmpty(0, 7, TableAt(g.table, Targets(g.table)));
  }

  /** A game with nothing outside the foundations offers no move at all. */
  lemma NothingLeftNoMoves(g: Game)
    requires Cleared(g)
    ensures |AllMoves(GetGameState(g))| == 0
  {
    ClearedNoFlips(g);
    ClearedNoTableAces(g);
    ClearedNoKings(g);
    ClearedNoPromotions(g);
    ClearedNoTableMoves(g);
  }

  /** On a valid game, get_final_state says WON exactly when all four foundations are
      full; and a full set of foundations is reached only with every card on them. */
  lemma WonIffComplete(g: Game)
    requires Valid(g)
    ensures GetFinalState(GetGameState(g)) == Won <==> AllFull(g)
  {
    if AllFull(g) {
      FullFoundationsLeaveNothing(g);
      NothingLeftNoMoves(g);
    }
  }
}
