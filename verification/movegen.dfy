/** The seven move generators and get_game_state (src/solitare/solitare.rs). Each
    generator scans the game in index order; its membership lemma says exactly which
    moves it lists and its ordering lemma says in which order. */
module MoveGen {
  import opened Seqs
  import opened Cards
  import opened Games
  import opened State

  // ---------------------------------------------------------------- targets

  /** The last face-up card of a stack, with the position a card laid on it takes. */
  datatype Target = Target(card: Card, at: CardPosition)

  /** Each generator is a scan over indices; its "At" function gives what one index
      contributes, so that the scan reads Concat(0, n, XAt(...)). */
  function TargetAt(table: seq<TableStack>): int -> seq<Target> {
    s =>
      if 0 <= s < |table| && |table[s].upturned| > 0 then
        [Target(Last(table[s].upturned), TableUpturned(s, |table[s].upturned|))]
      else []
  }

  /** The final_table_stack_cards of get_game_state: one target per stack with face-up
      cards, in stack order; a card laid on it goes just past the run's end. */
  function Targets(table: seq<TableStack>): seq<Target> {
    Concat(0, |table|, TargetAt(table))
  }

  function OntoAt(card: Card, from: CardPosition, targets: seq<Target>): int -> seq<GameMove> {
    f =>
      if 0 <= f < |targets| && CanStack(targets[f].card, card) then [GameMove(from, targets[f].at)]
      else []
  }

  /** The moves of `card`, sitting at `from`, onto every target it may be laid on, in
      target order: the inner loop of get_table_moves and get_deck_moves. */
  function Onto(card: Card, from: CardPosition, targets: seq<Target>): seq<GameMove> {
    Concat(0, |targets|, OntoAt(card, from, targets))
  }

  // ---------------------------------------------------------------- flips and aces

  function FlipAt(table: seq<TableStack>): int -> seq<GameMove> {
    s =>
      if 0 <= s < |table| && |table[s].upturned| == 0 && |table[s].downturned| != 0 then
        [GameMove(TableDownturned(s, |table[s].downturned| - 1), TableUpturned(s, 0))]
      else []
  }

  /** Game::get_table_flip_moves. */
  function TableFlipMoves(g: Game): seq<GameMove> {
    Concat(0, |g.table|, FlipAt(g.table))
  }

  function TableAceAt(table: seq<TableStack>): int -> seq<GameMove> {
    s =>
      if 0 <= s < |table| && |table[s].upturned| > 0 && Last(table[s].upturned).number == 1 then
        [GameMove(TableUpturned(s, |table[s].upturned| - 1), Ace(Last(table[s].upturned).suitIndex))]
      else []
  }

  /** Game::get_table_ace_moves. */
  function TableAceMoves(g: Game): seq<GameMove> {
    Concat(0, |g.table|, TableAceAt(g.table))
  }

  function DrawAceAt(draw: seq<Card>): int -> seq<GameMove> {
    d =>
      if 0 <= d < |draw| && draw[d].number == 1 then [GameMove(DrawDeck(d), Ace(draw[d].suitIndex))]
      else []
  }

  /** Game::get_draw_ace_moves. */
  function DrawAceMoves(g: Game): seq<GameMove> {
    Concat(0, |g.draw|, DrawAceAt(g.draw))
  }

  // ---------------------------------------------------------------- kings

  /** A king heads the face-up run of a stack that still has face-down cards. */
  predicate TableKing(table: seq<TableStack>, s: int) {
    0 <= s < |table| && |table[s].downturned| != 0 && |table[s].upturned| > 0
      && table[s].upturned[0].number == 13
  }

  predicate DrawKing(draw: seq<Card>, d: int) {
    0 <= d < |draw| && draw[d].number == 13
  }

  /** The index of the first stack with no cards at all, or |table| when there is none. */
  function FirstVacant(table: seq<TableStack>): (v: int)
    ensures 0 <= v <= |table|
    ensures forall s :: 0 <= s < v ==> !IsVacant(table[s])
    ensures v < |table| ==> IsVacant(table[v])
  {
    if |table| == 0 then 0
    else if IsVacant(table[0]) then 0
    else 1 + FirstVacant(table[1..])
  }

  function TableKingAt(table: seq<TableStack>): int -> seq<CardPosition> {
    s => if TableKing(table, s) then [TableUpturned(s, 0)] else []
  }

  function DrawKingAt(draw: seq<Card>): int -> seq<CardPosition> {
    d => if DrawKing(draw, d) then [DrawDeck(d)] else []
  }

  /** The queuing kings of the table, in stack order. */
  function TableKings(table: seq<TableStack>): seq<CardPosition> {
    Concat(0, |table|, TableKingAt(table))
  }

  /** The queuing kings of the draw pile, in pile order. */
  function DrawKings(draw: seq<Card>): seq<CardPosition> {
    Concat(0, |draw|, DrawKingAt(draw))
  }

  /** Game::get_table_king_moves: the moves, and the number of queuing kings cast to i8. */
  function TableKingMoves(g: Game): (seq<GameMove>, int) {
    var tq := TableKings(g.table);
    var v := FirstVacant(g.table);
    var moves := if v < 7 then seq(|tq|, i requires 0 <= i < |tq| => GameMove(tq[i], TableUpturned(v, 0)))
                 else [];
    (moves, WrapI8(|tq| + |DrawKings(g.draw)|))
  }

  // ---------------------------------------------------------------- foundations

  /** The HashMap get_ace_stack_moves builds: each non-empty foundation, taken in order,
      records its last card's number under that card's suit, a later foundation
      overwriting an earlier one of the same suit. */
  function AceMap(aces: seq<seq<Card>>): map<Suit, int>
    decreases |aces|
  {
    if |aces| == 0 then map[]
    else
      var n := |aces| - 1;
      var m := AceMap(aces[..n]);
      if |aces[n]| > 0 then m[SuitOf(Last(aces[n])) := Last(aces[n]).number] else m
  }

  /** No later non-empty foundation ends in a card of the same suit as foundation k. */
  predicate LastOfSuit(aces: seq<seq<Card>>, k: int)
    requires 0 <= k < |aces| && |aces[k]| > 0
  {
    forall j :: k < j < |aces| && |aces[j]| > 0 ==> SuitOf(Last(aces[j])) != SuitOf(Last(aces[k]))
  }

  /** The card may go onto its suit's foundation: the map knows the suit, and the card's
      number is one more. */
  predicate Promotes(am: map<Suit, int>, c: Card) {
    SuitOf(c) in am && c.number == am[SuitOf(c)] + 1
  }

  function AceStackTableAt(table: seq<TableStack>, am: map<Suit, int>): int -> seq<GameMove> {
    s =>
      if 0 <= s < |table| && |table[s].upturned| > 0 && Promotes(am, Last(table[s].upturned)) then
        [GameMove(TableUpturned(s, |table[s].upturned| - 1), Ace(Last(table[s].upturned).suitIndex))]
      else []
  }

  function AceStackDrawAt(draw: seq<Card>, am: map<Suit, int>): int -> seq<GameMove> {
    d =>
      if 0 <= d < |draw| && Promotes(am, draw[d]) then [GameMove(DrawDeck(d), Ace(draw[d].suitIndex))]
      else []
  }

  /** Game::get_ace_stack_moves: the table's run ends first, then the draw pile. */
  function AceStackMoves(g: Game): seq<GameMove> {
    var am := AceMap(g.aces);
    Concat(0, |g.table|, AceStackTableAt(g.table, am)) + Concat(0, |g.draw|, AceStackDrawAt(g.draw, am))
  }

  // ---------------------------------------------------------------- table and deck

  function RunAt(up: seq<Card>, s: int, targets: seq<Target>): int -> seq<GameMove> {
    i => if 0 <= i < |up| then Onto(up[i], TableUpturned(s, i), targets) else []
  }

  function TableAt(table: seq<TableStack>, targets: seq<Target>): int -> seq<GameMove> {
    s =>
      if 0 <= s < |table| then Concat(0, |table[s].upturned|, RunAt(table[s].upturned, s, targets))
      else []
  }

  /** Game::get_table_moves: every face-up card, with the cards above it, onto every
      target it may be laid on. */
  function TableMoves(g: Game, targets: seq<Target>): seq<GameMove> {
    Concat(0, |g.table|, TableAt(g.table, targets))
  }

  function DeckAt(draw: seq<Card>, targets: seq<Target>): int -> seq<GameMove> {
    d => if 0 <= d < |draw| then Onto(draw[d], DrawDeck(d), targets) else []
  }

  /** Game::get_deck_moves: every draw card onto every target it may be laid on. */
  function DeckMoves(g: Game, targets: seq<Target>): seq<GameMove> {
    Concat(0, |g.draw|, DeckAt(g.draw, targets))
  }

  // ---------------------------------------------------------------- the state

  /** Game::get_game_state. */
  function GetGameState(g: Game): (st: GameState)
    ensures st.aces == g.aces
  {
    var targets := Targets(g.table);
    var (kingMoves, queuing) := TableKingMoves(g);
    GameState(
      TableFlipMoves(g), TableAceMoves(g), DrawAceMoves(g), kingMoves, AceStackMoves(g),
      TableMoves(g, targets), DeckMoves(g, targets), g.aces, queuing)
  }

  // ---------------------------------------------------------------- membership

  lemma TargetsMembers(table: seq<TableStack>, t: Target)
    ensures t in Targets(table) <==>
      exists s :: 0 <= s < |table| && |table[s].upturned| > 0
        && t == Target(Last(table[s].upturned), TableUpturned(s, |table[s].upturned|))
  {
    if t in Targets(table) {
      var s :| 0 <= s < |table| && t in TargetAt(table)(s);
    }
    if exists s :: 0 <= s < |table| && |table[s].upturned| > 0
        && t == Target(Last(table[s].upturned), TableUpturned(s, |table[s].upturned|)) {
      var s :| 0 <= s < |table| && |table[s].upturned| > 0
        && t == Target(Last(table[s].upturned), TableUpturned(s, |table[s].upturned|));
      assert t in TargetAt(table)(s);
    }
  }

  lemma OntoMembers(card: Card, from: CardPosition, targets: seq<Target>, m: GameMove)
    ensures m in Onto(card, from, targets) <==>
      exists f :: 0 <= f < |targets| && CanStack(targets[f].card, card)
        && m == GameMove(from, targets[f].at)
  {
    if m in Onto(card, from, targets) {
      var f :| 0 <= f < |targets| && m in OntoAt(card, from, targets)(f);
    }
    if exists f :: 0 <= f < |targets| && CanStack(targets[f].card, card) && m == GameMove(from, targets[f].at) {
      var f :| 0 <= f < |targets| && CanStack(targets[f].card, card) && m == GameMove(from, targets[f].at);
      assert m in OntoAt(card, from, targets)(f);
    }
  }

  /** A flip turns up the top face-down card of a stack with no face-up cards. */
  lemma TableFlipMembers(g: Game, m: GameMove)
    ensures m in TableFlipMoves(g) <==>
      exists s :: 0 <= s < |g.table| && |g.table[s].upturned| == 0 && |g.table[s].downturned| != 0
        && m == GameMove(TableDownturned(s, |g.table[s].downturned| - 1), TableUpturned(s, 0))
  {
    if m in TableFlipMoves(g) {
      var s :| 0 <= s < |g.table| && m in FlipAt(g.table)(s);
    }
    if exists s :: 0 <= s < |g.table| && |g.table[s].upturned| == 0 && |g.table[s].downturned| != 0
        && m == GameMove(TableDownturned(s, |g.table[s].downturned| - 1), TableUpturned(s, 0)) {
      var s :| 0 <= s < |g.table| && |g.table[s].upturned| == 0 && |g.table[s].downturned| != 0
        && m == GameMove(TableDownturned(s, |g.table[s].downturned| - 1), TableUpturned(s, 0));
      assert m in FlipAt(g.table)(s);
    }
  }

  /** A table ace move lifts an ace ending a face-up run to the foundation its suit
      index names. */
  lemma TableAceMembers(g: Game, m: GameMove)
    ensures m in TableAceMoves(g) <==>
      exists s :: 0 <= s < |g.table| && |g.table[s].upturned| > 0
        && Last(g.table[s].upturned).number == 1
        && m == GameMove(TableUpturned(s, |g.table[s].upturned| - 1),
                         Ace(Last(g.table[s].upturned).suitIndex))
  {
    if m in TableAceMoves(g) {
      var s :| 0 <= s < |g.table| && m in TableAceAt(g.table)(s);
    }
    if exists s :: 0 <= s < |g.table| && |g.table[s].upturned| > 0
        && Last(g.table[s].upturned).number == 1
        && m == GameMove(TableUpturned(s, |g.table[s].upturned| - 1),
                         Ace(Last(g.table[s].upturned).suitIndex)) {
      var s :| 0 <= s < |g.table| && |g.table[s].upturned| > 0
        && Last(g.table[s].upturned).number == 1
        && m == GameMove(TableUpturned(s, |g.table[s].upturned| - 1),
                         Ace(Last(g.table[s].upturned).suitIndex));
      assert m in TableAceAt(g.table)(s);
    }
  }

  /** A draw ace move lifts any ace of the draw pile, wherever it lies, to its foundation. */
  lemma DrawAceMembers(g: Game, m: GameMove)
    ensures m in DrawAceMoves(g) <==>
      exists d :: 0 <= d < |g.draw| && g.draw[d].number == 1
        && m == GameMove(DrawDeck(d), Ace(g.draw[d].suitIndex))
  {
    if m in DrawAceMoves(g) {
      var d :| 0 <= d < |g.draw| && m in DrawAceAt(g.draw)(d);
    }
    if exists d :: 0 <= d < |g.draw| && g.draw[d].number == 1
        && m == GameMove(DrawDeck(d), Ace(g.draw[d].suitIndex)) {
      var d :| 0 <= d < |g.draw| && g.draw[d].number == 1
        && m == GameMove(DrawDeck(d), Ace(g.draw[d].suitIndex));
      assert m in DrawAceAt(g.draw)(d);
    }
  }

  /** Every listed king move takes the run a table king heads to the first vacant stack. */
  lemma TableKingMovesSound(g: Game, m: GameMove)
    requires m in TableKingMoves(g).0
    ensures FirstVacant(g.table) < 7
    ensures exists s :: TableKing(g.table, s)
              && m == GameMove(TableUpturned(s, 0), TableUpturned(FirstVacant(g.table), 0))
  {
    var tq := TableKings(g.table);
    var moves := TableKingMoves(g).0;
    var i :| 0 <= i < |moves| && moves[i] == m;
    assert tq[i] in tq;
    var s :| 0 <= s < |g.table| && tq[i] in TableKingAt(g.table)(s);
  }

  /** With a vacant stack, the run of every table king is offered to the first one. */
  lemma TableKingMovesComplete(g: Game, s: int)
    requires FirstVacant(g.table) < 7 && TableKing(g.table, s)
    ensures GameMove(TableUpturned(s, 0), TableUpturned(FirstVacant(g.table), 0)) in TableKingMoves(g).0
  {
    var tq := TableKings(g.table);
    var moves := TableKingMoves(g).0;
    assert TableUpturned(s, 0) in TableKingAt(g.table)(s);
    assert TableUpturned(s, 0) in tq;
    var i :| 0 <= i < |tq| && tq[i] == TableUpturned(s, 0);
    assert moves[i] == GameMove(TableUpturned(s, 0), TableUpturned(FirstVacant(g.table), 0));
  }

  /** A king move takes the run a table king heads to the first vacant stack, and there
      is one only when some stack is vacant. Kings of the draw pile never move here. */
  lemma TableKingMembers(g: Game, m: GameMove)
    ensures m in TableKingMoves(g).0 <==>
      FirstVacant(g.table) < 7
        && (exists s :: TableKing(g.table, s)
              && m == GameMove(TableUpturned(s, 0), TableUpturned(FirstVacant(g.table), 0)))
  {
    var v := FirstVacant(g.table);
    if m in TableKingMoves(g).0 {
      TableKingMovesSound(g, m);
    }
    if v < 7 && exists s :: TableKing(g.table, s) && m == GameMove(TableUpturned(s, 0), TableUpturned(v, 0)) {
      var s :| TableKing(g.table, s) && m == GameMove(TableUpturned(s, 0), TableUpturned(v, 0));
      TableKingMovesComplete(g, s);
    }
  }

  /** The table's queuing kings are listed once each. */
  lemma TableKingsCount(table: seq<TableStack>)
    ensures |TableKings(table)| == |set s | 0 <= s < |table| && TableKing(table, s)|
  {
    var p := s => TableKing(table, s);
    ConcatLength(0, |table|, TableKingAt(table), p);
    assert (set s | 0 <= s < |table| && p(s)) == (set s | 0 <= s < |table| && TableKing(table, s));
  }

  /** The draw pile's kings are listed once each. */
  lemma DrawKingsCount(draw: seq<Card>)
    ensures |DrawKings(draw)| == |set d | 0 <= d < |draw| && DrawKing(draw, d)|
  {
    var q := d => DrawKing(draw, d);
    ConcatLength(0, |draw|, DrawKingAt(draw), q);
    assert (set d | 0 <= d < |draw| && q(d)) == (set d | 0 <= d < |draw| && DrawKing(draw, d));
  }

  /** The count of queuing kings is the number of table kings plus the number of kings
      anywhere in the draw pile, cast to i8. */
  lemma QueuingKingsCount(g: Game)
    ensures GetGameState(g).queuingKings
         == WrapI8(|set s | 0 <= s < |g.table| && TableKing(g.table, s)|
                   + |set d | 0 <= d < |g.draw| && DrawKing(g.draw, d)|)
  {
    TableKingsCount(g.table);
    DrawKingsCount(g.draw);
    assert GetGameState(g).queuingKings == TableKingMoves(g).1;
  }

  /** The map holds exactly the suits some non-empty foundation ends in. */
  lemma {:induction false} AceMapDomain(aces: seq<seq<Card>>, su: Suit)
    ensures su in AceMap(aces) <==>
      exists k :: 0 <= k < |aces| && |aces[k]| > 0 && SuitOf(Last(aces[k])) == su
    decreases |aces|
  {
    if |aces| > 0 {
      var n := |aces| - 1;
      var pre := aces[..n];
      AceMapDomain(pre, su);
      if su in AceMap(pre) {
        var k :| 0 <= k < n && |pre[k]| > 0 && SuitOf(Last(pre[k])) == su;
        assert pre[k] == aces[k];
      }
      if exists k :: 0 <= k < |aces| && |aces[k]| > 0 && SuitOf(Last(aces[k])) == su {
        var k :| 0 <= k < |aces| && |aces[k]| > 0 && SuitOf(Last(aces[k])) == su;
        if k < n {
          assert pre[k] == aces[k];
        }
      }
    }
  }

  /** For a suit, the map holds the top number of the last foundation that ends in it. */
  lemma {:induction false} AceMapValue(aces: seq<seq<Card>>, k: int)
    requires 0 <= k < |aces| && |aces[k]| > 0 && LastOfSuit(aces, k)
    ensures SuitOf(Last(aces[k])) in AceMap(aces)
    ensures AceMap(aces)[SuitOf(Last(aces[k]))] == Last(aces[k]).number
    decreases |aces|
  {
    var n := |aces| - 1;
    if k < n {
      var pre := aces[..n];
      assert pre[k] == aces[k];
      assert LastOfSuit(pre, k) by {
        forall j | k < j < n && |pre[j]| > 0
          ensures SuitOf(Last(pre[j])) != SuitOf(Last(pre[k]))
        {
          assert pre[j] == aces[j];
        }
      }
      AceMapValue(pre, k);
    }
  }

  /** The table half of get_ace_stack_moves: the run ends that follow their foundation. */
  lemma AceStackTableMembers(table: seq<TableStack>, am: map<Suit, int>, m: GameMove)
    ensures m in Concat(0, |table|, AceStackTableAt(table, am)) <==>
      exists s :: 0 <= s < |table| && |table[s].upturned| > 0
        && Promotes(am, Last(table[s].upturned))
        && m == GameMove(TableUpturned(s, |table[s].upturned| - 1), Ace(Last(table[s].upturned).suitIndex))
  {
    if m in Concat(0, |table|, AceStackTableAt(table, am)) {
      var s :| 0 <= s < |table| && m in AceStackTableAt(table, am)(s);
    }
    if exists s :: 0 <= s < |table| && |table[s].upturned| > 0
        && Promotes(am, Last(table[s].upturned))
        && m == GameMove(TableUpturned(s, |table[s].upturned| - 1), Ace(Last(table[s].upturned).suitIndex)) {
      var s :| 0 <= s < |table| && |table[s].upturned| > 0
        && Promotes(am, Last(table[s].upturned))
        && m == GameMove(TableUpturned(s, |table[s].upturned| - 1), Ace(Last(table[s].upturned).suitIndex));
      assert m in AceStackTableAt(table, am)(s);
    }
  }

  /** The draw half of get_ace_stack_moves: the draw cards that follow their foundation. */
  lemma AceStackDrawMembers(draw: seq<Card>, am: map<Suit, int>, m: GameMove)
    ensures m in Concat(0, |draw|, AceStackDrawAt(draw, am)) <==>
      exists d :: 0 <= d < |draw| && Promotes(am, draw[d]) && m == GameMove(DrawDeck(d), Ace(draw[d].suitIndex))
  {
    if m in Concat(0, |draw|, AceStackDrawAt(draw, am)) {
      var d :| 0 <= d < |draw| && m in AceStackDrawAt(draw, am)(d);
    }
    if exists d :: 0 <= d < |draw| && Promotes(am, draw[d]) && m == GameMove(DrawDeck(d), Ace(draw[d].suitIndex)) {
      var d :| 0 <= d < |draw| && Promotes(am, draw[d]) && m == GameMove(DrawDeck(d), Ace(draw[d].suitIndex));
      assert m in AceStackDrawAt(draw, am)(d);
    }
  }

  /** An ace-stack move promotes a run end, or any draw card, that follows the top of its
      suit's foundation as the map records it. */
  lemma AceStackMembers(g: Game, m: GameMove)
    ensures m in AceStackMoves(g) <==>
      || (exists s :: 0 <= s < |g.table| && |g.table[s].upturned| > 0
            && Promotes(AceMap(g.aces), Last(g.table[s].upturned))
            && m == GameMove(TableUpturned(s, |g.table[s].upturned| - 1),
                             Ace(Last(g.table[s].upturned).suitIndex)))
      || (exists d :: 0 <= d < |g.draw| && Promotes(AceMap(g.aces), g.draw[d])
            && m == GameMove(DrawDeck(d), Ace(g.draw[d].suitIndex)))
  {
    var am := AceMap(g.aces);
    AceStackTableMembers(g.table, am, m);
    AceStackDrawMembers(g.draw, am, m);
  }

  /** Every listed table move takes a face-up card onto a target it may be laid on. */
  lemma TableMovesSound(g: Game, targets: seq<Target>, m: GameMove)
    requires m in TableMoves(g, targets)
    ensures exists s, i, f :: 0 <= s < |g.table| && 0 <= i < |g.table[s].upturned| && 0 <= f < |targets|
                              && CanStack(targets[f].card, g.table[s].upturned[i])
                              && m == GameMove(TableUpturned(s, i), targets[f].at)
  {
    var s :| 0 <= s < |g.table| && m in TableAt(g.table, targets)(s);
    var up := g.table[s].upturned;
    var i :| 0 <= i < |up| && m in RunAt(up, s, targets)(i);
    OntoMembers(up[i], TableUpturned(s, i), targets, m);
  }

  /** Every face-up card that may be laid on a target gets that move listed. */
  lemma TableMovesComplete(g: Game, targets: seq<Target>, s: int, i: int, f: int)
    requires 0 <= s < |g.table| && 0 <= i < |g.table[s].upturned| && 0 <= f < |targets|
    requires CanStack(targets[f].card, g.table[s].upturned[i])
    ensures GameMove(TableUpturned(s, i), targets[f].at) in TableMoves(g, targets)
  {
    var m := GameMove(TableUpturned(s, i), targets[f].at);
    var up := g.table[s].upturned;
    OntoMembers(up[i], TableUpturned(s, i), targets, m);
    assert m in RunAt(up, s, targets)(i);
    assert m in TableAt(g.table, targets)(s);
  }

  /** A table move takes a face-up card and everything above it onto a target the card
      may be laid on. */
  lemma TableMovesMembers(g: Game, targets: seq<Target>, m: GameMove)
    ensures m in TableMoves(g, targets) <==>
      exists s, i, f :: 0 <= s < |g.table| && 0 <= i < |g.table[s].upturned| && 0 <= f < |targets|
        && CanStack(targets[f].card, g.table[s].upturned[i])
        && m == GameMove(TableUpturned(s, i), targets[f].at)
  {
    if m in TableMoves(g, targets) {
      TableMovesSound(g, targets, m);
    }
    if exists s, i, f :: 0 <= s < |g.table| && 0 <= i < |g.table[s].upturned| && 0 <= f < |targets|
        && CanStack(targets[f].card, g.table[s].upturned[i])
        && m == GameMove(TableUpturned(s, i), targets[f].at) {
      var s, i, f :| 0 <= s < |g.table| && 0 <= i < |g.table[s].upturned| && 0 <= f < |targets|
        && CanStack(targets[f].card, g.table[s].upturned[i])
        && m == GameMove(TableUpturned(s, i), targets[f].at);
      TableMovesComplete(g, targets, s, i, f);
    }
  }

  /** A deck move lays any draw card onto a target it may be laid on. */
  lemma DeckMovesMembers(g: Game, targets: seq<Target>, m: GameMove)
    ensures m in DeckMoves(g, targets) <==>
      exists d, f :: 0 <= d < |g.draw| && 0 <= f < |targets| && CanStack(targets[f].card, g.draw[d])
        && m == GameMove(DrawDeck(d), targets[f].at)
  {
    if m in DeckMoves(g, targets) {
      var d :| 0 <= d < |g.draw| && m in DeckAt(g.draw, targets)(d);
      OntoMembers(g.draw[d], DrawDeck(d), targets, m);
      var f :| 0 <= f < |targets| && CanStack(targets[f].card, g.draw[d])
        && m == GameMove(DrawDeck(d), targets[f].at);
    }
    if exists d, f :: 0 <= d < |g.draw| && 0 <= f < |targets| && CanStack(targets[f].card, g.draw[d])
        && m == GameMove(DrawDeck(d), targets[f].at) {
      var d, f :| 0 <= d < |g.draw| && 0 <= f < |targets| && CanStack(targets[f].card, g.draw[d])
        && m == GameMove(DrawDeck(d), targets[f].at);
      OntoMembers(g.draw[d], DrawDeck(d), targets, m);
      assert m in DeckAt(g.draw, targets)(d);
    }
  }
}
