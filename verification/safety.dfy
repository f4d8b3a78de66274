/** Every move get_game_state lists, executed on a game in which the invariant holds,
    passes all of execute's assertions and leaves a game in which it still holds. */
module Safety {
  import opened Seqs
  import opened Cards
  import opened Games
  import opened State
  import opened MoveGen

  // ---------------------------------------------------------------- runs

  /** Down a face-up run the numbers fall by one per card. */
  lemma {:induction false} RunDescends(up: seq<Card>, i: int, j: int)
    requires IsRun(up) && 0 <= i <= j < |up|
    ensures up[i].number == up[j].number + (j - i)
    decreases j - i
  {
    if i < j {
      RunDescends(up, i + 1, j);
      assert CanStack(up[i], up[i + 1]);
    }
  }

  /** No card of a run may be laid on the run's own last card: the last card has the
      colour of itself, and any earlier card has a higher number than it. */
  lemma NoSelfTarget(up: seq<Card>, i: int)
    requires IsRun(up) && 0 <= i < |up|
    ensures !CanStack(Last(up), up[i])
  {
    if i < |up| - 1 {
      RunDescends(up, i, |up| - 1);
    }
  }

  lemma RunSlices(up: seq<Card>, i: int)
    requires IsRun(up) && 0 <= i <= |up|
    ensures IsRun(up[..i]) && IsRun(up[i..])
  {
    forall k | 0 < k < i
      ensures CanStack(up[..i][k - 1], up[..i][k])
    {
      assert up[..i][k - 1] == up[k - 1] && up[..i][k] == up[k];
    }
    forall k | 0 < k < |up| - i
      ensures CanStack(up[i..][k - 1], up[i..][k])
    {
      assert up[i..][k - 1] == up[i + k - 1] && up[i..][k] == up[i + k];
    }
  }

  /** Two runs joined where the second's first card may be laid on the first's last card. */
  lemma RunJoin(a: seq<Card>, b: seq<Card>)
    requires IsRun(a) && IsRun(b)
    requires |a| > 0 && |b| > 0 ==> CanStack(Last(a), b[0])
    ensures IsRun(a + b)
  {
    var ab := a + b;
    forall k | 0 < k < |ab|
      ensures CanStack(ab[k - 1], ab[k])
    {
      if k < |a| {
        assert ab[k - 1] == a[k - 1] && ab[k] == a[k];
      } else if k == |a| {
        assert ab[k - 1] == Last(a) && ab[k] == b[0];
      } else {
        assert ab[k - 1] == b[k - 1 - |a|] && ab[k] == b[k - |a|];
      }
    }
  }

  // ---------------------------------------------------------------- cards

  lemma DeckCard(g: Game, c: Card)
    requires Valid(g) && c in AllCards(g)
    ensures IsDeckCard(c)
  {
    FullDeckMembers(c);
  }

  lemma UpCard(g: Game, s: int, i: int)
    requires Valid(g) && 0 <= s < 7 && 0 <= i < |g.table[s].upturned|
    ensures IsDeckCard(g.table[s].upturned[i])
    ensures g.table[s].upturned[i] in StackCards(g.table[s])
  {
    var c := g.table[s].upturned[i];
    assert c in multiset(g.table[s].upturned);
    TotalContains(g.table, s, StackCards);
    DeckCard(g, c);
  }

  lemma DrawCard(g: Game, d: int)
    requires Valid(g) && 0 <= d < |g.draw|
    ensures IsDeckCard(g.draw[d])
  {
    DeckCard(g, g.draw[d]);
  }

  /** A card on the table is on no foundation: the deck has one copy of each card. */
  lemma TableCardNotOnFoundation(g: Game, s: int, c: Card, a: int)
    requires Valid(g) && 0 <= s < 7 && 0 <= a < 4 && c in StackCards(g.table[s])
    ensures c !in g.aces[a]
  {
    TotalContains(g.table, s, StackCards);
    TotalContains(g.aces, a, PileCards);
    FullDeckCountsAtMostOne(c);
    assert StackCards(g.table[s])[c] + PileCards(g.aces[a])[c] <= AllCards(g)[c] <= 1;
  }

  /** A card of the draw pile is on no foundation. */
  lemma DrawCardNotOnFoundation(g: Game, d: int, a: int)
    requires Valid(g) && 0 <= d < |g.draw| && 0 <= a < 4
    ensures g.draw[d] !in g.aces[a]
  {
    var c := g.draw[d];
    TotalContains(g.aces, a, PileCards);
    FullDeckCountsAtMostOne(c);
    assert multiset(g.draw)[c] + PileCards(g.aces[a])[c] <= AllCards(g)[c] <= 1;
  }

  /** A started foundation holds its suit's ace. */
  lemma StartedFoundationHoldsAce(g: Game, c: Card)
    requires Valid(g) && IsDeckCard(c) && c.number == 1
    ensures |g.aces[c.suitIndex]| > 0 ==> c in g.aces[c.suitIndex]
  {
    var a := c.suitIndex;
    if |g.aces[a]| > 0 {
      assert g.aces[a][0] == c;
    }
  }

  /** On valid foundations the map of get_ace_stack_moves records, under each suit, the
      height of that suit's foundation, and knows exactly the suits that have been started. */
  lemma AceMapOfFoundations(g: Game, k: int)
    requires Valid(g) && 0 <= k < 4
    ensures FromIndex(k) in AceMap(g.aces) <==> |g.aces[k]| > 0
    ensures |g.aces[k]| > 0 ==> AceMap(g.aces)[FromIndex(k)] == |g.aces[k]|
  {
    AceMapDomain(g.aces, FromIndex(k));
    if FromIndex(k) in AceMap(g.aces) {
      var j :| 0 <= j < 4 && |g.aces[j]| > 0 && SuitOf(Last(g.aces[j])) == FromIndex(k);
      assert Last(g.aces[j]) == Card(j, |g.aces[j]|);
      FromIndexInjective(j, k);
    }
    if |g.aces[k]| > 0 {
      assert Last(g.aces[k]) == Card(k, |g.aces[k]|);
      forall j | k < j < 4 && |g.aces[j]| > 0
        ensures SuitOf(Last(g.aces[j])) != SuitOf(Last(g.aces[k]))
      {
        assert Last(g.aces[j]) == Card(j, |g.aces[j]|);
        FromIndexInjective(j, k);
      }
      AceMapValue(g.aces, k);
    }
  }

  /** A deck card the map promotes is the next card of its suit's started foundation. */
  lemma PromotionTarget(g: Game, c: Card)
    requires Valid(g) && IsDeckCard(c) && Promotes(AceMap(g.aces), c)
    ensures |g.aces[c.suitIndex]| > 0 && c.number == |g.aces[c.suitIndex]| + 1
    ensures c == Card(c.suitIndex, |g.aces[c.suitIndex]| + 1)
  {
    AceMapOfFoundations(g, c.suitIndex);
  }

  /** Laying the next card of suit a on foundation a keeps it a foundation. */
  lemma FoundationGrows(p: seq<Card>, a: int, c: Card)
    requires IsFoundation(p, a) && c == Card(a, |p| + 1) && c.number <= 13
    ensures IsFoundation(p + [c], a)
  {
  }

  // ---------------------------------------------------------------- executions in closed form

  /** The last card of run s goes onto foundation a. */
  lemma LiftRunEnd(g: Game, s: int, a: int)
    requires Shaped(g) && 0 <= s < 7 && |g.table[s].upturned| > 0 && 0 <= a < 4
    requires |g.aces[a]| > 0 ==> Last(g.aces[a]).number == Last(g.table[s].upturned).number - 1
    ensures var up := g.table[s].upturned;
      var m := GameMove(TableUpturned(s, |up| - 1), Ace(a));
      && CanExecute(g, m)
      && Execute(g, m) == g.(table := g.table[s := g.table[s].(upturned := up[..|up| - 1])],
                             aces := g.aces[a := g.aces[a] + [Last(up)]])
  {
    var up := g.table[s].upturned;
    assert up[|up| - 1..] == [Last(up)];
  }

  /** Draw card d goes onto foundation a. */
  lemma LiftDrawCard(g: Game, d: int, a: int)
    requires Shaped(g) && 0 <= d < |g.draw| && d < 24 && 0 <= a < 4
    requires |g.aces[a]| > 0 ==> Last(g.aces[a]).number == g.draw[d].number - 1
    ensures var m := GameMove(DrawDeck(d), Ace(a));
      && CanExecute(g, m)
      && Execute(g, m) == g.(draw := g.draw[..d] + g.draw[d + 1..],
                             aces := g.aces[a := g.aces[a] + [g.draw[d]]])
  {
  }

  /** The run of stack s from index i on goes to the end of the run of another stack t. */
  lemma MoveRun(g: Game, s: int, i: int, t: int)
    requires Shaped(g) && 0 <= s < 7 && 0 <= t < 7 && s != t && 0 <= i <= |g.table[s].upturned|
    ensures var up, onto := g.table[s].upturned, g.table[t].upturned;
      var m := GameMove(TableUpturned(s, i), TableUpturned(t, |onto|));
      && CanExecute(g, m)
      && Execute(g, m) == g.(table := g.table[s := g.table[s].(upturned := up[..i])]
                                             [t := g.table[t].(upturned := onto + up[i..])])
  {
  }

  /** Draw card d goes to the end of the run of stack t. */
  lemma DealOnto(g: Game, d: int, t: int)
    requires Shaped(g) && 0 <= d < |g.draw| && d < 24 && 0 <= t < 7
    ensures var onto := g.table[t].upturned;
      var m := GameMove(DrawDeck(d), TableUpturned(t, |onto|));
      && CanExecute(g, m)
      && Execute(g, m) == g.(draw := g.draw[..d] + g.draw[d + 1..],
                             table := g.table[t := g.table[t].(upturned := onto + [g.draw[d]])])
  {
  }

  /** The top face-down card of stack s, whose run is empty, is turned up. */
  lemma TurnUp(g: Game, s: int)
    requires Shaped(g) && 0 <= s < 7 && |g.table[s].upturned| == 0 && |g.table[s].downturned| > 0
    ensures var down := g.table[s].downturned;
      var m := GameMove(TableDownturned(s, |down| - 1), TableUpturned(s, 0));
      && CanExecute(g, m)
      && Execute(g, m) == g.(table := g.table[s := TableStack(down[..|down| - 1], [Last(down)])])
  {
    var down := g.table[s].downturned;
    assert down[..|down| - 1] + down[|down|..] == down[..|down| - 1];
  }

  // ---------------------------------------------------------------- validity of the results

  /** Replacing one stack of a valid table by a stack whose face-up cards form a run
      leaves every face-up part of the table a run. */
  lemma RunsAfterUpdate(g: Game, s: int, stack: TableStack, table: seq<TableStack>)
    requires Valid(g) && 0 <= s < 7 && IsRun(stack.upturned) && table == g.table[s := stack]
    ensures forall k :: 0 <= k < 7 ==> IsRun(table[k].upturned)
  {
    forall k | 0 <= k < 7
      ensures IsRun(table[k].upturned)
    {
      if k != s {
        assert table[k] == g.table[k];
      }
    }
  }

  /** Replacing one foundation of a valid game by a well-formed one leaves every
      foundation well formed. */
  lemma FoundationsAfterUpdate(g: Game, a: int, p: seq<Card>, aces: seq<seq<Card>>)
    requires Valid(g) && 0 <= a < 4 && IsFoundation(p, a) && aces == g.aces[a := p]
    ensures forall k :: 0 <= k < 4 ==> IsFoundation(aces[k], k)
  {
    forall k | 0 <= k < 4
      ensures IsFoundation(aces[k], k)
    {
      if k != a {
        assert aces[k] == g.aces[k];
      }
    }
  }

  /** A game that differs from a valid one only in the runs listed, the foundation listed
      and the draw pile, each still well formed, and holds the same cards, is valid. */
  lemma StillValid(g: Game, r: Game)
    requires Valid(g) && Shaped(r) && |r.draw| <= |g.draw| && AllCards(r) == AllCards(g)
    requires forall k :: 0 <= k < 4 ==> IsFoundation(r.aces[k], k)
    requires forall k :: 0 <= k < 7 ==> IsRun(r.table[k].upturned)
    ensures Valid(r)
  {
  }

  /** Promoting the last card of run s, when it is the next card of foundation a. */
  lemma PromoteRunEnd(g: Game, s: int, a: int)
    requires Valid(g) && 0 <= s < 7 && |g.table[s].upturned| > 0 && 0 <= a < 4
    requires Last(g.table[s].upturned) == Card(a, |g.aces[a]| + 1)
    ensures var m := GameMove(TableUpturned(s, |g.table[s].upturned| - 1), Ace(a));
      CanExecute(g, m) && Valid(Execute(g, m))
  {
    var up := g.table[s].upturned;
    var n := |up| - 1;
    var m := GameMove(TableUpturned(s, n), Ace(a));
    UpCard(g, s, n);
    if |g.aces[a]| > 0 {
      assert Last(g.aces[a]) == Card(a, |g.aces[a]|);
    }
    LiftRunEnd(g, s, a);
    FoundationGrows(g.aces[a], a, up[n]);
    FoundationsAfterUpdate(g, a, g.aces[a] + [up[n]], g.aces[a := g.aces[a] + [up[n]]]);
    RunSlices(up, n);
    RunsAfterUpdate(g, s, g.table[s].(upturned := up[..n]), g.table[s := g.table[s].(upturned := up[..n])]);
    StillValid(g, Execute(g, m));
  }

  /** Promoting draw card d, when it is the next card of foundation a. */
  lemma PromoteDrawCard(g: Game, d: int, a: int)
    requires Valid(g) && 0 <= d < |g.draw| && 0 <= a < 4
    requires g.draw[d] == Card(a, |g.aces[a]| + 1)
    ensures var m := GameMove(DrawDeck(d), Ace(a));
      CanExecute(g, m) && Valid(Execute(g, m))
  {
    var c := g.draw[d];
    DrawCard(g, d);
    if |g.aces[a]| > 0 {
      assert Last(g.aces[a]) == Card(a, |g.aces[a]|);
    }
    LiftDrawCard(g, d, a);
    var m := GameMove(DrawDeck(d), Ace(a));
    FoundationGrows(g.aces[a], a, c);
    FoundationsAfterUpdate(g, a, g.aces[a] + [c], g.aces[a := g.aces[a] + [c]]);
    StillValid(g, Execute(g, m));
  }

  /** Moving the run of stack s from index i onto the end of another stack t, when its
      first card may be laid there (or t has no face-up cards). */
  lemma RunToStack(g: Game, s: int, i: int, t: int)
    requires Valid(g) && 0 <= s < 7 && 0 <= t < 7 && s != t && 0 <= i < |g.table[s].upturned|
    requires |g.table[t].upturned| > 0 ==> CanStack(Last(g.table[t].upturned), g.table[s].upturned[i])
    ensures var m := GameMove(TableUpturned(s, i), TableUpturned(t, |g.table[t].upturned|));
      CanExecute(g, m) && Valid(Execute(g, m))
  {
    var m := GameMove(TableUpturned(s, i), TableUpturned(t, |g.table[t].upturned|));
    MoveRun(g, s, i, t);
    RunToStackRuns(g, s, i, t);
    StillValid(g, Execute(g, m));
  }

  /** After a run moves between two stacks, every run of the table is still a run. */
  lemma RunToStackRuns(g: Game, s: int, i: int, t: int)
    requires Valid(g) && 0 <= s < 7 && 0 <= t < 7 && s != t && 0 <= i < |g.table[s].upturned|
    requires |g.table[t].upturned| > 0 ==> CanStack(Last(g.table[t].upturned), g.table[s].upturned[i])
    ensures var up, onto := g.table[s].upturned, g.table[t].upturned;
      var table := g.table[s := g.table[s].(upturned := up[..i])][t := g.table[t].(upturned := onto + up[i..])];
      forall k :: 0 <= k < 7 ==> IsRun(table[k].upturned)
  {
    var up, onto := g.table[s].upturned, g.table[t].upturned;
    var table := g.table[s := g.table[s].(upturned := up[..i])][t := g.table[t].(upturned := onto + up[i..])];
    RunSlices(up, i);
    RunJoin(onto, up[i..]);
    forall k | 0 <= k < 7
      ensures IsRun(table[k].upturned)
    {
      if k != s && k != t {
        assert table[k] == g.table[k];
      }
    }
  }

  /** Laying draw card d on the end of the run of stack t, where it may be laid. */
  lemma DrawToStack(g: Game, d: int, t: int)
    requires Valid(g) && 0 <= d < |g.draw| && 0 <= t < 7 && |g.table[t].upturned| > 0
    requires CanStack(Last(g.table[t].upturned), g.draw[d])
    ensures var m := GameMove(DrawDeck(d), TableUpturned(t, |g.table[t].upturned|));
      CanExecute(g, m) && Valid(Execute(g, m))
  {
    var onto := g.table[t].upturned;
    DealOnto(g, d, t);
    var r := g.(draw := g.draw[..d] + g.draw[d + 1..],
                table := g.table[t := g.table[t].(upturned := onto + [g.draw[d]])]);
    RunJoin(onto, [g.draw[d]]);
    forall k | 0 <= k < 7
      ensures IsRun(r.table[k].upturned)
    {
      if k != t {
        assert r.table[k] == g.table[k];
      }
    }
    StillValid(g, r);
  }

  // ---------------------------------------------------------------- one lemma per category

  /** Turning up the top face-down card of stack s, whose run is empty. */
  lemma FlipStackIsSafe(g: Game, s: int)
    requires Valid(g) && 0 <= s < 7 && |g.table[s].upturned| == 0 && |g.table[s].downturned| > 0
    ensures var m := GameMove(TableDownturned(s, |g.table[s].downturned| - 1), TableUpturned(s, 0));
      CanExecute(g, m) && Valid(Execute(g, m))
  {
    var down := g.table[s].downturned;
    var m := GameMove(TableDownturned(s, |down| - 1), TableUpturned(s, 0));
    TurnUp(g, s);
    var stack := TableStack(down[..|down| - 1], [Last(down)]);
    RunsAfterUpdate(g, s, stack, g.table[s := stack]);
    StillValid(g, Execute(g, m));
  }

  lemma FlipIsSafe(g: Game, m: GameMove)
    requires Valid(g) && m in TableFlipMoves(g)
    ensures CanExecute(g, m) && Valid(Execute(g, m))
  {
    TableFlipMembers(g, m);
    var s :| 0 <= s < |g.table| && |g.table[s].upturned| == 0 && |g.table[s].downturned| != 0
      && m == GameMove(TableDownturned(s, |g.table[s].downturned| - 1), TableUpturned(s, 0));
    FlipStackIsSafe(g, s);
  }

  /** Promoting the ace that ends the run of stack s: its foundation is still empty. */
  lemma AceFromStackIsSafe(g: Game, s: int)
    requires Valid(g) && 0 <= s < 7 && |g.table[s].upturned| > 0
    requires Last(g.table[s].upturned).number == 1
    ensures var m := GameMove(TableUpturned(s, |g.table[s].upturned| - 1),
                              Ace(Last(g.table[s].upturned).suitIndex));
      CanExecute(g, m) && Valid(Execute(g, m))
  {
    var n := |g.table[s].upturned| - 1;
    var c := g.table[s].upturned[n];
    UpCard(g, s, n);
    assert c in StackCards(g.table[s]);
    TableCardNotOnFoundation(g, s, c, c.suitIndex);
    StartedFoundationHoldsAce(g, c);
    assert c == Card(c.suitIndex, |g.aces[c.suitIndex]| + 1);
    PromoteRunEnd(g, s, c.suitIndex);
  }

  lemma TableAceIsSafe(g: Game, m: GameMove)
    requires Valid(g) && m in TableAceMoves(g)
    ensures CanExecute(g, m) && Valid(Execute(g, m))
  {
    TableAceMembers(g, m);
    var s :| 0 <= s < |g.table| && |g.table[s].upturned| > 0
      && Last(g.table[s].upturned).number == 1
      && m == GameMove(TableUpturned(s, |g.table[s].upturned| - 1),
                       Ace(Last(g.table[s].upturned).suitIndex));
    AceFromStackIsSafe(g, s);
  }

  lemma DrawAceIsSafe(g: Game, m: GameMove)
    requires Valid(g) && m in DrawAceMoves(g)
    ensures CanExecute(g, m) && Valid(Execute(g, m))
  {
    DrawAceMembers(g, m);
    var d :| 0 <= d < |g.draw| && g.draw[d].number == 1
      && m == GameMove(DrawDeck(d), Ace(g.draw[d].suitIndex));
    var c := g.draw[d];
    DrawCard(g, d);
    DrawCardNotOnFoundation(g, d, c.suitIndex);
    StartedFoundationHoldsAce(g, c);
    PromoteDrawCard(g, d, c.suitIndex);
  }

  lemma TableKingIsSafe(g: Game, m: GameMove)
    requires Valid(g) && m in TableKingMoves(g).0
    ensures CanExecute(g, m) && Valid(Execute(g, m))
  {
    TableKingMembers(g, m);
    var v := FirstVacant(g.table);
    var s :| TableKing(g.table, s) && m == GameMove(TableUpturned(s, 0), TableUpturned(v, 0));
    assert IsVacant(g.table[v]);
    RunToStack(g, s, 0, v);
  }

  /** Promoting the last card of stack s, which follows the top of its suit's foundation. */
  lemma PromotionFromTableIsSafe(g: Game, s: int)
    requires Valid(g) && 0 <= s < |g.table| && |g.table[s].upturned| > 0
    requires Promotes(AceMap(g.aces), Last(g.table[s].upturned))
    ensures var m := GameMove(TableUpturned(s, |g.table[s].upturned| - 1),
                              Ace(Last(g.table[s].upturned).suitIndex));
      CanExecute(g, m) && Valid(Execute(g, m))
  {
    var n := |g.table[s].upturned| - 1;
    var c := g.table[s].upturned[n];
    UpCard(g, s, n);
    PromotionTarget(g, c);
    PromoteRunEnd(g, s, c.suitIndex);
  }

  /** Promoting draw card d, which follows the top of its suit's foundation. */
  lemma PromotionFromDrawIsSafe(g: Game, d: int)
    requires Valid(g) && 0 <= d < |g.draw| && Promotes(AceMap(g.aces), g.draw[d])
    ensures var m := GameMove(DrawDeck(d), Ace(g.draw[d].suitIndex));
      CanExecute(g, m) && Valid(Execute(g, m))
  {
    DrawCard(g, d);
    PromotionTarget(g, g.draw[d]);
    PromoteDrawCard(g, d, g.draw[d].suitIndex);
  }

  lemma AceStackIsSafe(g: Game, m: GameMove)
    requires Valid(g) && m in AceStackMoves(g)
    ensures CanExecute(g, m) && Valid(Execute(g, m))
  {
    AceStackMembers(g, m);
    var am := AceMap(g.aces);
    if exists s :: 0 <= s < |g.table| && |g.table[s].upturned| > 0
        && Promotes(am, Last(g.table[s].upturned))
        && m == GameMove(TableUpturned(s, |g.table[s].upturned| - 1),
                         Ace(Last(g.table[s].upturned).suitIndex)) {
      var s :| 0 <= s < |g.table| && |g.table[s].upturned| > 0
        && Promotes(am, Last(g.table[s].upturned))
        && m == GameMove(TableUpturned(s, |g.table[s].upturned| - 1),
                         Ace(Last(g.table[s].upturned).suitIndex));
      PromotionFromTableIsSafe(g, s);
    } else {
      var d :| 0 <= d < |g.draw| && Promotes(am, g.draw[d])
        && m == GameMove(DrawDeck(d), Ace(g.draw[d].suitIndex));
      PromotionFromDrawIsSafe(g, d);
    }
  }

  /** The target a valid game's scan offers, as a stack index. */
  lemma TargetOf(g: Game, targets: seq<Target>, f: int) returns (t: int)
    requires Valid(g) && targets == Targets(g.table) && 0 <= f < |targets|
    ensures 0 <= t < 7 && |g.table[t].upturned| > 0
    ensures targets[f] == Target(Last(g.table[t].upturned), TableUpturned(t, |g.table[t].upturned|))
  {
    TargetsMembers(g.table, targets[f]);
    t :| 0 <= t < |g.table| && |g.table[t].upturned| > 0
      && targets[f] == Target(Last(g.table[t].upturned), TableUpturned(t, |g.table[t].upturned|));
  }

  lemma TableMoveIsSafe(g: Game, m: GameMove)
    requires Valid(g) && m in TableMoves(g, Targets(g.table))
    ensures CanExecute(g, m) && Valid(Execute(g, m))
  {
    var targets := Targets(g.table);
    TableMovesMembers(g, targets, m);
    var s, i, f :| 0 <= s < |g.table| && 0 <= i < |g.table[s].upturned| && 0 <= f < |targets|
      && CanStack(targets[f].card, g.table[s].upturned[i])
      && m == GameMove(TableUpturned(s, i), targets[f].at);
    var t := TargetOf(g, targets, f);
    NoSelfTarget(g.table[s].upturned, i);
    RunToStack(g, s, i, t);
  }

  lemma DeckMoveIsSafe(g: Game, m: GameMove)
    requires Valid(g) && m in DeckMoves(g, Targets(g.table))
    ensures CanExecute(g, m) && Valid(Execute(g, m))
  {
    var targets := Targets(g.table);
    DeckMovesMembers(g, targets, m);
    var d, f :| 0 <= d < |g.draw| && 0 <= f < |targets| && CanStack(targets[f].card, g.draw[d])
      && m == GameMove(DrawDeck(d), targets[f].at);
    var t := TargetOf(g, targets, f);
    DrawToStack(g, d, t);
  }

  /** Every move get_game_state lists can be executed without tripping an assertion or a
      bounds check, and keeps the 52 cards, the foundations and the runs in order. */
  lemma GeneratedMovesAreSafe(g: Game, m: GameMove)
    requires Valid(g) && m in AllMoves(GetGameState(g))
    ensures CanExecute(g, m) && Valid(Execute(g, m))
  {
    var st := GetGameState(g);
    if m in st.tableFlipMoves {
      FlipIsSafe(g, m);
    } else if m in st.tableAceMoves {
      TableAceIsSafe(g, m);
    } else if m in st.drawAceMoves {
      DrawAceIsSafe(g, m);
    } else if m in st.tableKingMoves {
      TableKingIsSafe(g, m);
    } else if m in st.aceStackMoves {
      AceStackIsSafe(g, m);
    } else if m in st.tableMoves {
      TableMoveIsSafe(g, m);
    } else {
      assert m in st.deckMoves;
      DeckMoveIsSafe(g, m);
    }
  }
}
