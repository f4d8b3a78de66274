/** Positions, moves, their execution and the classification of a game state
    (src/solitare/state.rs). */
module State {
  import opened Seqs
  import opened Cards
  import opened Games

  /** Where a card sits. Indices are the source's 8-bit integers; a game holds 52 cards,
      so no index it produces leaves that range. */
  datatype CardPosition =
    | TableDownturned(stackIndex: int, downturnedIndex: int)
    | TableUpturned(stackIndex: int, upturnedIndex: int)
    | Ace(suitIndex: int)
    | DrawDeck(deckIndex: int)

  datatype GameMove = GameMove(from: CardPosition, to: CardPosition)

  datatype GameFinalState = Won | Lost | Unfinished

  /** The moves available in one game, by category, with the foundations and the number
      of kings waiting for an empty stack. */
  datatype GameState = GameState(
    tableFlipMoves: seq<GameMove>,
    tableAceMoves: seq<GameMove>,
    drawAceMoves: seq<GameMove>,
    tableKingMoves: seq<GameMove>,
    aceStackMoves: seq<GameMove>,
    tableMoves: seq<GameMove>,
    deckMoves: seq<GameMove>,
    aces: seq<seq<Card>>,
    queuingKings: int)

  /** Some category offers a move. */
  predicate HasMoves(st: GameState) {
    || |st.tableFlipMoves| != 0
    || |st.tableAceMoves| != 0
    || |st.drawAceMoves| != 0
    || |st.tableKingMoves| != 0
    || |st.aceStackMoves| != 0
    || |st.tableMoves| != 0
    || |st.deckMoves| != 0
  }

  /** Every move the state offers, in category order. */
  function AllMoves(st: GameState): seq<GameMove> {
    st.tableFlipMoves + st.tableAceMoves + st.drawAceMoves + st.tableKingMoves
      + st.aceStackMoves + st.tableMoves + st.deckMoves
  }

  /** GameState::get_final_state: unfinished while any category offers a move; once none
      does, won exactly when all four foundations are full, lost otherwise. */
  function GetFinalState(st: GameState): (r: GameFinalState)
    requires |st.aces| == 4
    ensures r == Unfinished <==> |AllMoves(st)| != 0
    ensures r == Won <==> |AllMoves(st)| == 0 && forall k :: 0 <= k < 4 ==> IsFull(st.aces[k])
    ensures r == Lost <==> |AllMoves(st)| == 0 && exists k :: 0 <= k < 4 && !IsFull(st.aces[k])
  {
    if !HasMoves(st) then
      if IsFull(st.aces[0]) && IsFull(st.aces[1]) && IsFull(st.aces[2]) && IsFull(st.aces[3])
      then Won
      else Lost
    else Unfinished
  }

  // ---------------------------------------------------------------- execution

  /** The tableau stack a position names, or -1 when it names none. */
  function StackOf(p: CardPosition): int {
    match p
    case TableDownturned(s, _) => s
    case TableUpturned(s, _) => s
    case _ => -1
  }

  /** What `execute` demands of the source position: its stack and index exist (the
      asserts and the vector operations panic otherwise), the draw index is below 24,
      and no move comes from a foundation. */
  predicate CanTake(g: Game, from: CardPosition) {
    match from
    case TableDownturned(s, k) => 0 <= s < |g.table| && 0 <= k < |g.table[s].downturned|
    case TableUpturned(s, i) => 0 <= s < |g.table| && 0 <= i <= |g.table[s].upturned|
    case Ace(_) => false
    case DrawDeck(d) => d < 24 && 0 <= d < |g.draw|
  }

  /** The first half of `execute`: remove the addressed cards from their container. */
  function Take(g: Game, from: CardPosition): (r: (Game, seq<Card>))
    requires CanTake(g, from)
    ensures |r.0.table| == |g.table| && r.0.aces == g.aces
    ensures forall s :: 0 <= s < |g.table| && s != StackOf(from) ==> r.0.table[s] == g.table[s]
    ensures !from.DrawDeck? ==> r.0.draw == g.draw
    ensures from.TableDownturned? ==>
      var s, k := from.stackIndex, from.downturnedIndex;
      && r.1 == [g.table[s].downturned[k]]
      && r.0.table[s].upturned == g.table[s].upturned
      && |r.0.table[s].downturned| == k + |g.table[s].downturned[k + 1..]|
      && r.0.table[s].downturned[..k] + r.1 + r.0.table[s].downturned[k..] == g.table[s].downturned
    ensures from.TableUpturned? ==>
      var s, i := from.stackIndex, from.upturnedIndex;
      && r.0.table[s].downturned == g.table[s].downturned
      && |r.0.table[s].upturned| == i
      && r.0.table[s].upturned + r.1 == g.table[s].upturned
    ensures from.DrawDeck? ==>
      var d := from.deckIndex;
      && r.1 == [g.draw[d]]
      && |r.0.draw| == |g.draw| - 1
      && r.0.draw[..d] + r.1 + r.0.draw[d..] == g.draw
  {
    match from
    case TableDownturned(s, k) =>
      var st := g.table[s];
      var down := st.downturned[..k] + st.downturned[k + 1..];
      assert down[..k] + [st.downturned[k]] + down[k..] == st.downturned;
      (g.(table := g.table[s := st.(downturned := down)]), [st.downturned[k]])
    case TableUpturned(s, i) =>
      var st := g.table[s];
      assert st.upturned[..i] + st.upturned[i..] == st.upturned;
      (g.(table := g.table[s := st.(upturned := st.upturned[..i])]), st.upturned[i..])
    case DrawDeck(d) =>
      var draw := g.draw[..d] + g.draw[d + 1..];
      assert draw[..d] + [g.draw[d]] + draw[d..] == g.draw;
      (g.(draw := draw), [g.draw[d]])
  }

  /** What `execute` demands of the target: cards go only onto a face-up run (at an index
      inside it) or onto a foundation, and a foundation takes exactly one card, which
      must follow the foundation's last card when it has one. */
  predicate CanPut(g: Game, to: CardPosition, cards: seq<Card>) {
    match to
    case TableUpturned(t, j) => 0 <= t < |g.table| && 0 <= j <= |g.table[t].upturned|
    case Ace(a) =>
      && 0 <= a < 4 && a < |g.aces|
      && |cards| == 1
      && (|g.aces[a]| > 0 ==> Last(g.aces[a]).number == cards[0].number - 1)
    case _ => false
  }

  /** The second half of `execute`: insert the cards at the target. */
  function Put(g: Game, to: CardPosition, cards: seq<Card>): (r: Game)
    requires CanPut(g, to, cards)
    ensures |r.table| == |g.table| && |r.aces| == |g.aces| && r.draw == g.draw
    ensures forall s :: 0 <= s < |g.table| && s != StackOf(to) ==> r.table[s] == g.table[s]
    ensures to.TableUpturned? ==>
      var t, j := to.stackIndex, to.upturnedIndex;
      && r.aces == g.aces
      && r.table[t].downturned == g.table[t].downturned
      && |r.table[t].upturned| == |g.table[t].upturned| + |cards|
      && r.table[t].upturned[j..j + |cards|] == cards
      && r.table[t].upturned[..j] + r.table[t].upturned[j + |cards|..] == g.table[t].upturned
      && (j == |g.table[t].upturned| ==> r.table[t].upturned == g.table[t].upturned + cards)
    ensures to.Ace? ==>
      && r.table == g.table
      && (forall k :: 0 <= k < |g.aces| && k != to.suitIndex ==> r.aces[k] == g.aces[k])
      && r.aces[to.suitIndex] == g.aces[to.suitIndex] + cards
  {
    match to
    case TableUpturned(t, j) =>
      var st := g.table[t];
      var up := st.upturned[..j] + cards + st.upturned[j..];
      assert up[j..j + |cards|] == cards;
      assert up[..j] + up[j + |cards|..] == st.upturned;
      assert j == |st.upturned| ==> up == st.upturned + cards;
      g.(table := g.table[t := st.(upturned := up)])
    case Ace(a) =>
      g.(aces := g.aces[a := g.aces[a] + cards])
  }

  lemma TakeDownturnedConserves(g: Game, s: int, k: int)
    requires CanTake(g, TableDownturned(s, k))
    ensures var (r, cards) := Take(g, TableDownturned(s, k));
      AllCards(r) + multiset(cards) == AllCards(g)
  {
    var (r, cards) := Take(g, TableDownturned(s, k));
    var down, down' := g.table[s].downturned, r.table[s].downturned;
    assert multiset(down) == multiset(down'[..k]) + multiset(cards) + multiset(down'[k..]) by {
      assert down == down'[..k] + cards + down'[k..];
    }
    assert multiset(down') == multiset(down'[..k]) + multiset(down'[k..]) by {
      assert down' == down'[..k] + down'[k..];
    }
    ShrinkStack(g, s, r.table[s], multiset(cards));
    assert r == g.(table := g.table[s := r.table[s]]);
  }

  lemma TakeUpturnedConserves(g: Game, s: int, i: int)
    requires CanTake(g, TableUpturned(s, i))
    ensures var (r, cards) := Take(g, TableUpturned(s, i));
      AllCards(r) + multiset(cards) == AllCards(g)
  {
    var (r, cards) := Take(g, TableUpturned(s, i));
    assert multiset(g.table[s].upturned) == multiset(r.table[s].upturned) + multiset(cards);
    ShrinkStack(g, s, r.table[s], multiset(cards));
    assert r == g.(table := g.table[s := r.table[s]]);
  }

  lemma TakeDrawConserves(g: Game, d: int)
    requires CanTake(g, DrawDeck(d))
    ensures var (r, cards) := Take(g, DrawDeck(d));
      AllCards(r) + multiset(cards) == AllCards(g)
  {
    var (r, cards) := Take(g, DrawDeck(d));
    assert multiset(g.draw) == multiset(r.draw[..d]) + multiset(cards) + multiset(r.draw[d..]) by {
      assert g.draw == r.draw[..d] + cards + r.draw[d..];
    }
    assert multiset(r.draw) == multiset(r.draw[..d]) + multiset(r.draw[d..]) by {
      assert r.draw == r.draw[..d] + r.draw[d..];
    }
  }

  lemma TakeConservesCards(g: Game, from: CardPosition)
    requires CanTake(g, from)
    ensures AllCards(Take(g, from).0) + multiset(Take(g, from).1) == AllCards(g)
  {
    match from
    case TableDownturned(s, k) => TakeDownturnedConserves(g, s, k);
    case TableUpturned(s, i) => TakeUpturnedConserves(g, s, i);
    case DrawDeck(d) => TakeDrawConserves(g, d);
  }

  lemma PutConservesCards(g: Game, to: CardPosition, cards: seq<Card>)
    requires CanPut(g, to, cards)
    ensures AllCards(Put(g, to, cards)) == AllCards(g) + multiset(cards)
  {
    var r := Put(g, to, cards);
    match to
    case TableUpturned(t, j) =>
      var up, up' := g.table[t].upturned, r.table[t].upturned;
      assert multiset(up') == multiset(up'[..j]) + multiset(cards) + multiset(up'[j + |cards|..]) by {
        assert up' == up'[..j] + up'[j..j + |cards|] + up'[j + |cards|..];
      }
      assert multiset(up) == multiset(up'[..j]) + multiset(up'[j + |cards|..]);
      GrowStack(g, t, r.table[t], multiset(cards));
      assert r == g.(table := g.table[t := r.table[t]]);
    case Ace(a) =>
      GrowPile(g, a, cards);
  }

  /** The source's assertions and bounds checks all pass for this move. */
  predicate CanExecute(g: Game, m: GameMove) {
    CanTake(g, m.from) && CanPut(Take(g, m.from).0, m.to, Take(g, m.from).1)
  }

  /** GameMove::execute: the cards move from one container to another, and no card is
      created or lost. */
  function Execute(g: Game, m: GameMove): (r: Game)
    requires CanExecute(g, m)
    ensures AllCards(r) == AllCards(g)
    ensures |r.table| == |g.table| && |r.aces| == |g.aces|
  {
    var (rest, cards) := Take(g, m.from);
    TakeConservesCards(g, m.from);
    PutConservesCards(rest, m.to, cards);
    Put(rest, m.to, cards)
  }

  /** Taking a whole face-up run to a position outside its stack leaves the stack with
      its face-down cards only. */
  lemma TakeWholeRun(g: Game, m: GameMove)
    requires CanExecute(g, m) && m.from.TableUpturned? && m.from.upturnedIndex == 0
    requires StackOf(m.to) != m.from.stackIndex
    ensures Execute(g, m).table[m.from.stackIndex] == TableStack(g.table[m.from.stackIndex].downturned, [])
  {
    var s := m.from.stackIndex;
    var rest := Take(g, m.from).0;
    assert rest.table[s] == TableStack(g.table[s].downturned, []);
  }
}
