/** The order in which the generators of src/solitare/solitare.rs list their moves: each
    scans its containers by index, so a move found earlier in the scan comes earlier in
    the list. The solver's first-positive choice is therefore the positive move found
    first by the scan. */
module Order {
  import opened Seqs
  import opened Cards
  import opened Games
  import opened State
  import opened MoveGen
  import opened Solver

  /** Where a scan meets a move: the index of its source container, the index within
      that container, and the stack it goes to. */
  function ScanKey(m: GameMove): (int, int, int) {
    match m.from
    case TableDownturned(s, k) => (s, k, StackOf(m.to))
    case TableUpturned(s, i) => (s, i, StackOf(m.to))
    case Ace(a) => (a, 0, StackOf(m.to))
    case DrawDeck(d) => (d, 0, StackOf(m.to))
  }

  /** Lexicographic order on scan keys. */
  predicate KeyLess(a: (int, int, int), b: (int, int, int)) {
    || a.0 < b.0
    || (a.0 == b.0 && a.1 < b.1)
    || (a.0 == b.0 && a.1 == b.1 && a.2 < b.2)
  }

  /** x is met by the scan before y. */
  predicate ScanBefore(x: GameMove, y: GameMove) {
    KeyLess(ScanKey(x), ScanKey(y))
  }

  /** Targets come in stack order. */
  predicate TargetBefore(x: Target, y: Target) {
    StackOf(x.at) < StackOf(y.at)
  }

  // ---------------------------------------------------------------- targets

  lemma TargetsOrdered(table: seq<TableStack>)
    ensures Ordered(Targets(table), TargetBefore)
  {
    forall k1, k2, x, y | 0 <= k1 < k2 < |table| && x in TargetAt(table)(k1) && y in TargetAt(table)(k2)
      ensures TargetBefore(x, y)
    {
    }
    ConcatOrdered(0, |table|, TargetAt(table), TargetBefore);
  }

  /** The moves of one card go to the targets in target order. */
  lemma OntoOrdered(card: Card, from: CardPosition, targets: seq<Target>)
    requires Ordered(targets, TargetBefore)
    ensures Ordered(Onto(card, from, targets), ScanBefore)
  {
    var f := OntoAt(card, from, targets);
    forall k1, k2, x, y | 0 <= k1 < k2 < |targets| && x in f(k1) && y in f(k2)
      ensures ScanBefore(x, y)
    {
      assert TargetBefore(targets[k1], targets[k2]);
    }
    ConcatOrdered(0, |targets|, f, ScanBefore);
  }

  // ---------------------------------------------------------------- one move per index

  lemma TableFlipOrdered(g: Game)
    ensures Ordered(TableFlipMoves(g), ScanBefore)
  {
    forall k1, k2, x, y | 0 <= k1 < k2 < |g.table| && x in FlipAt(g.table)(k1) && y in FlipAt(g.table)(k2)
      ensures ScanBefore(x, y)
    {
    }
    ConcatOrdered(0, |g.table|, FlipAt(g.table), ScanBefore);
  }

  lemma TableAceOrdered(g: Game)
    ensures Ordered(TableAceMoves(g), ScanBefore)
  {
    forall k1, k2, x, y | 0 <= k1 < k2 < |g.table| && x in TableAceAt(g.table)(k1) && y in TableAceAt(g.table)(k2)
      ensures ScanBefore(x, y)
    {
    }
    ConcatOrdered(0, |g.table|, TableAceAt(g.table), ScanBefore);
  }

  lemma DrawAceOrdered(g: Game)
    ensures Ordered(DrawAceMoves(g), ScanBefore)
  {
    forall k1, k2, x, y | 0 <= k1 < k2 < |g.draw| && x in DrawAceAt(g.draw)(k1) && y in DrawAceAt(g.draw)(k2)
      ensures ScanBefore(x, y)
    {
    }
    ConcatOrdered(0, |g.draw|, DrawAceAt(g.draw), ScanBefore);
  }

  // ---------------------------------------------------------------- table and deck

  /** The moves of one stack's run: by card, bottom of the run first, then by target. */
  lemma RunOrdered(up: seq<Card>, s: int, targets: seq<Target>)
    requires Ordered(targets, TargetBefore)
    ensures Ordered(Concat(0, |up|, RunAt(up, s, targets)), ScanBefore)
  {
    var f := RunAt(up, s, targets);
    forall i | 0 <= i < |up|
      ensures Ordered(f(i), ScanBefore)
    {
      OntoOrdered(up[i], TableUpturned(s, i), targets);
    }
    forall i1, i2, x, y | 0 <= i1 < i2 < |up| && x in f(i1) && y in f(i2)
      ensures ScanBefore(x, y)
    {
      OntoMembers(up[i1], TableUpturned(s, i1), targets, x);
      OntoMembers(up[i2], TableUpturned(s, i2), targets, y);
    }
    ConcatOrdered(0, |up|, f, ScanBefore);
  }

  /** Every move of one stack's block comes from a face-up card of that stack. */
  lemma TableAtFrom(table: seq<TableStack>, targets: seq<Target>, s: int, x: GameMove)
    requires 0 <= s < |table| && x in TableAt(table, targets)(s)
    ensures x.from.TableUpturned? && x.from.stackIndex == s
  {
    var up := table[s].upturned;
    var i :| 0 <= i < |up| && x in RunAt(up, s, targets)(i);
    OntoMembers(up[i], TableUpturned(s, i), targets, x);
  }

  /** Each stack's block lists its moves by card, then by target. */
  lemma TableBlocksOrdered(table: seq<TableStack>, targets: seq<Target>)
    requires Ordered(targets, TargetBefore)
    ensures forall s :: 0 <= s < |table| ==> Ordered(TableAt(table, targets)(s), ScanBefore)
  {
    forall s | 0 <= s < |table|
      ensures Ordered(TableAt(table, targets)(s), ScanBefore)
    {
      RunOrdered(table[s].upturned, s, targets);
    }
  }

  /** A block of an earlier stack comes wholly before a block of a later one. */
  lemma TableBlocksSeparated(table: seq<TableStack>, targets: seq<Target>)
    ensures forall s1, s2, x, y ::
      (0 <= s1 < s2 < |table| && x in TableAt(table, targets)(s1) && y in TableAt(table, targets)(s2))
      ==> ScanBefore(x, y)
  {
    forall s1, s2, x, y | 0 <= s1 < s2 < |table| && x in TableAt(table, targets)(s1)
      && y in TableAt(table, targets)(s2)
      ensures ScanBefore(x, y)
    {
      TableAtFrom(table, targets, s1, x);
      TableAtFrom(table, targets, s2, y);
    }
  }

  /** get_table_moves lists its moves by source stack, then by card, then by target. */
  lemma TableMovesOrdered(g: Game)
    ensures Ordered(TableMoves(g, Targets(g.table)), ScanBefore)
  {
    var targets := Targets(g.table);
    TargetsOrdered(g.table);
    TableBlocksOrdered(g.table, targets);
    TableBlocksSeparated(g.table, targets);
    ConcatOrdered(0, |g.table|, TableAt(g.table, targets), ScanBefore);
  }

  /** Every move of one draw card's block comes from that card. */
  lemma DeckAtFrom(draw: seq<Card>, targets: seq<Target>, d: int, x: GameMove)
    requires 0 <= d < |draw| && x in DeckAt(draw, targets)(d)
    ensures x.from == DrawDeck(d)
  {
    OntoMembers(draw[d], DrawDeck(d), targets, x);
  }

  /** Each draw card's block lists its moves in target order. */
  lemma DeckBlocksOrdered(draw: seq<Card>, targets: seq<Target>)
    requires Ordered(targets, TargetBefore)
    ensures forall d :: 0 <= d < |draw| ==> Ordered(DeckAt(draw, targets)(d), ScanBefore)
  {
    forall d | 0 <= d < |draw|
      ensures Ordered(DeckAt(draw, targets)(d), ScanBefore)
    {
      OntoOrdered(draw[d], DrawDeck(d), targets);
    }
  }

  /** A block of an earlier draw card comes wholly before a block of a later one. */
  lemma DeckBlocksSeparated(draw: seq<Card>, targets: seq<Target>)
    ensures forall d1, d2, x, y ::
      (0 <= d1 < d2 < |draw| && x in DeckAt(draw, targets)(d1) && y in DeckAt(draw, targets)(d2))
      ==> ScanBefore(x, y)
  {
    forall d1, d2, x, y | 0 <= d1 < d2 < |draw| && x in DeckAt(draw, targets)(d1)
      && y in DeckAt(draw, targets)(d2)
      ensures ScanBefore(x, y)
    {
      DeckAtFrom(draw, targets, d1, x);
      DeckAtFrom(draw, targets, d2, y);
    }
  }

  /** get_deck_moves lists its moves by draw card, then by target. */
  lemma DeckMovesOrdered(g: Game)
    ensures Ordered(DeckMoves(g, Targets(g.table)), ScanBefore)
  {
    var targets := Targets(g.table);
    TargetsOrdered(g.table);
    DeckBlocksOrdered(g.draw, targets);
    DeckBlocksSeparated(g.draw, targets);
    ConcatOrdered(0, |g.draw|, DeckAt(g.draw, targets), ScanBefore);
  }

  // ---------------------------------------------------------------- the first positive move

  /** In an ordered list, the element at `i`, with no element before it satisfying `p`,
      comes before every other element that satisfies `p`. */
  lemma FirstIsEarliest<T>(s: seq<T>, p: T -> bool, before: (T, T) -> bool, i: int)
    requires Ordered(s, before) && 0 <= i < |s|
    requires forall j :: 0 <= j < i ==> !p(s[j])
    ensures forall x :: x in s && x != s[i] && p(x) ==> before(s[i], x)
  {
    forall x | x in s && x != s[i] && p(x)
      ensures before(s[i], x)
    {
      var j :| 0 <= j < |s| && s[j] == x;
      if j < i {
        assert !p(s[j]);
      }
    }
  }

  /** In a list in scan order, the first positive move is met by the scan before every
      other positive move. */
  lemma FirstPositiveIsEarliest(moves: seq<GameMove>, g: Game, st: GameState)
    requires forall m :: m in moves ==> PositiveDefined(g, m)
    requires Ordered(moves, ScanBefore)
    ensures var r := FirstPositive(moves, g, st);
      r.Some? ==> forall m :: m in moves && m != r.value && IsMovePositive(m, g, st) ==> ScanBefore(r.value, m)
  {
    var r := FirstPositive(moves, g, st);
    if r.Some? {
      var i :| 0 <= i < |moves| && moves[i] == r.value
        && IsMovePositive(moves[i], g, st)
        && forall j :: 0 <= j < i ==> !IsMovePositive(moves[j], g, st);
      var p := (m: GameMove) => PositiveDefined(g, m) && IsMovePositive(m, g, st);
      assert forall j :: 0 <= j < i ==> !p(moves[j]);
      FirstIsEarliest(moves, p, ScanBefore, i);
    }
  }
}
