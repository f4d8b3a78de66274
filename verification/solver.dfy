/** The solver (src/solver.rs): one iteration of the loop of `solve` as a step function,
    and the heuristic is_move_positive that decides the optional moves. */
module Solver {
  import opened Seqs
  import opened Cards
  import opened Games
  import opened State
  import opened MoveGen
  import opened Safety
  import opened Endgame

  // ---------------------------------------------------------------- the heuristic

  /** What is_move_positive reads without panicking: the source stack of a table move,
      the draw card of a deck move and, for a draw card going to the table, the target
      stack. Moves from a face-down card or a foundation reach `unreachable!`. */
  predicate PositiveDefined(g: Game, m: GameMove) {
    match m.from
    case TableUpturned(s, _) => 0 <= s < |g.table|
    case DrawDeck(d) =>
      0 <= d < |g.draw| && (m.to.TableUpturned? ==> 0 <= m.to.stackIndex < |g.table|)
    case _ => false
  }

  /** Some stack's face-up run starts with a card that `card` may be laid on: the root
      scan of is_move_positive, which stops at the first such stack. */
  function RootAccepts(table: seq<TableStack>, card: Card): (r: bool)
    ensures r <==> exists k :: 0 <= k < |table| && |table[k].upturned| > 0
                              && CanStack(table[k].upturned[0], card)
    decreases |table|
  {
    if |table| == 0 then false
    else if |table[0].upturned| > 0 && CanStack(table[0].upturned[0], card) then true
    else
      var r := RootAccepts(table[1..], card);
      assert forall k :: 1 <= k < |table| ==> table[1..][k - 1] == table[k];
      r
  }

  /** is_move_positive, without its explanation string. A move of a face-up run is
      positive exactly when it takes the whole run and either uncovers a face-down card
      or empties the stack while some king is queuing. A draw card going to the end of a
      run is positive exactly when some run's first card would accept it. Anything else,
      in particular a draw card going to a foundation, is not. */
  function IsMovePositive(m: GameMove, g: Game, st: GameState): (r: bool)
    requires PositiveDefined(g, m)
    ensures m.from.TableUpturned? ==>
      (r <==> m.from.upturnedIndex == 0
                && (|g.table[m.from.stackIndex].downturned| != 0 || st.queuingKings > 0))
    ensures m.from.DrawDeck? ==>
      (r <==> m.to.TableUpturned?
                && WrapI8(|g.table[m.to.stackIndex].upturned|) == m.to.upturnedIndex
                && exists k :: 0 <= k < |g.table| && |g.table[k].upturned| > 0
                                && CanStack(g.table[k].upturned[0], g.draw[m.from.deckIndex]))
  {
    match m.from
    case TableUpturned(s, i) =>
      if i == 0 then
        if |g.table[s].downturned| == 0 then st.queuingKings > 0 else true
      else false
    case DrawDeck(d) =>
      match m.to
      case TableUpturned(t, j) =>
        if WrapI8(|g.table[t].upturned|) == j then RootAccepts(g.table, g.draw[d]) else false
      case _ => false
  }

  /** No move of the list is judged positive. */
  predicate NonePositive(moves: seq<GameMove>, g: Game, st: GameState)
    requires forall m :: m in moves ==> PositiveDefined(g, m)
  {
    forall m :: m in moves ==> !IsMovePositive(m, g, st)
  }

  /** `m` is the first move of the list that is judged positive: the move a `for` loop
      over the list stops at. */
  predicate IsFirstPositive(moves: seq<GameMove>, m: GameMove, g: Game, st: GameState)
    requires forall m :: m in moves ==> PositiveDefined(g, m)
  {
    exists i :: 0 <= i < |moves| && moves[i] == m && IsMovePositive(moves[i], g, st)
                && forall j :: 0 <= j < i ==> !IsMovePositive(moves[j], g, st)
  }

  /** The first positive move of a list, as the solver's `for` loops find it. */
  function FirstPositive(moves: seq<GameMove>, g: Game, st: GameState): (r: Option<GameMove>)
    requires forall m :: m in moves ==> PositiveDefined(g, m)
    ensures r.Some? ==> IsFirstPositive(moves, r.value, g, st)
    ensures r.None? <==> NonePositive(moves, g, st)
    decreases |moves|
  {
    if |moves| == 0 then None
    else if IsMovePositive(moves[0], g, st) then
      assert moves[0] in moves;
      Some(moves[0])
    else
      var r := FirstPositive(moves[1..], g, st);
      assert forall j :: 1 <= j < |moves| ==> moves[1..][j - 1] == moves[j];
      assert r.Some? ==> exists i :: 1 <= i < |moves| && moves[i] == r.value
                          && IsMovePositive(moves[i], g, st)
                          && forall j :: 0 <= j < i ==> !IsMovePositive(moves[j], g, st);
      assert r.Some? ==> r.value in moves[1..];
      r
  }

  /** Moves of the optional categories come from a face-up card or the draw pile, and so
      may be judged. */
  predicate OptionalDefined(g: Game, st: GameState) {
    && (forall m :: m in st.aceStackMoves ==> PositiveDefined(g, m))
    && (forall m :: m in st.tableMoves ==> PositiveDefined(g, m))
    && (forall m :: m in st.deckMoves ==> PositiveDefined(g, m))
  }

  /** Every move the state lists may be executed and keeps the game valid. */
  predicate SafeMoves(g: Game, st: GameState) {
    forall m :: m in AllMoves(st) ==> CanExecute(g, m) && Valid(Execute(g, m))
  }

  lemma OptionalMovesDefined(g: Game)
    requires Valid(g)
    ensures OptionalDefined(g, GetGameState(g))
  {
    var st := GetGameState(g);
    forall m | m in st.aceStackMoves
      ensures PositiveDefined(g, m)
    {
      AceStackMembers(g, m);
    }
    forall m | m in st.tableMoves
      ensures PositiveDefined(g, m)
    {
      TableMovesMembers(g, Targets(g.table), m);
    }
    forall m | m in st.deckMoves
      ensures PositiveDefined(g, m)
    {
      DeckMovesMembers(g, Targets(g.table), m);
      var d, f :| 0 <= d < |g.draw| && 0 <= f < |Targets(g.table)|
        && CanStack(Targets(g.table)[f].card, g.draw[d])
        && m == GameMove(DrawDeck(d), Targets(g.table)[f].at);
      var t := TargetOf(g, Targets(g.table), f);
    }
  }

  /** The facts an iteration relies on, gathered for the state of a valid game. */
  lemma StateOfValidGame(g: Game)
    requires Valid(g)
    ensures |GetGameState(g).aces| == 4
    ensures SafeMoves(g, GetGameState(g))
    ensures OptionalDefined(g, GetGameState(g))
  {
    forall m | m in AllMoves(GetGameState(g))
      ensures CanExecute(g, m) && Valid(Execute(g, m))
    {
      GeneratedMovesAreSafe(g, m);
    }
    OptionalMovesDefined(g);
  }

  // ---------------------------------------------------------------- one iteration

  datatype StepResult =
    | Finished(state: GameFinalState)
    | Stuck
    | Moved(move: GameMove, next: Game)

  /** Every category's moves are among the state's moves. */
  lemma InAllMoves(st: GameState, m: GameMove)
    ensures m in st.tableFlipMoves || m in st.tableAceMoves || m in st.drawAceMoves
         || m in st.tableKingMoves || m in st.aceStackMoves || m in st.tableMoves
         || m in st.deckMoves
        ==> m in AllMoves(st)
  {
  }

  /** Execute a listed move. */
  function Play(g: Game, st: GameState, m: GameMove): (r: StepResult)
    requires SafeMoves(g, st) && m in AllMoves(st)
    ensures r.Moved? && r.move == m && CanExecute(g, m) && r.next == Execute(g, m) && Valid(r.next)
  {
    Moved(m, Execute(g, m))
  }

  /** The move the second half of an iteration picks: the first positive ace-stack move,
      else the first positive table move, else the first positive deck move. A later list
      is looked at only when no move of the earlier ones is positive. */
  function ChoosePositive(g: Game, st: GameState): (r: Option<GameMove>)
    requires OptionalDefined(g, st)
    ensures !NonePositive(st.aceStackMoves, g, st) ==>
      r.Some? && IsFirstPositive(st.aceStackMoves, r.value, g, st)
    ensures NonePositive(st.aceStackMoves, g, st) && !NonePositive(st.tableMoves, g, st) ==>
      r.Some? && IsFirstPositive(st.tableMoves, r.value, g, st)
    ensures NonePositive(st.aceStackMoves, g, st) && NonePositive(st.tableMoves, g, st)
            && !NonePositive(st.deckMoves, g, st) ==>
      r.Some? && IsFirstPositive(st.deckMoves, r.value, g, st)
    ensures r.None? <==>
      NonePositive(st.aceStackMoves, g, st) && NonePositive(st.tableMoves, g, st)
      && NonePositive(st.deckMoves, g, st)
  {
    match FirstPositive(st.aceStackMoves, g, st)
    case Some(m) => Some(m)
    case None =>
      match FirstPositive(st.tableMoves, g, st)
      case Some(m) => Some(m)
      case None => FirstPositive(st.deckMoves, g, st)
  }

  /** The policy of one iteration, stated move by move. A won or lost game stops the
      loop. Otherwise the first move of the first non-empty list among flips, table aces,
      draw aces and kings is played; failing those, the first positive move of the first
      of the ace-stack, table and deck lists that has one; and with none, the solver
      gives up. */
  predicate Policy(g: Game, st: GameState, r: StepResult)
    requires |st.aces| == 4 && OptionalDefined(g, st)
  {
    var ace, table, deck := st.aceStackMoves, st.tableMoves, st.deckMoves;
    if GetFinalState(st) != Unfinished then r == Finished(GetFinalState(st))
    else if |st.tableFlipMoves| > 0 then r.Moved? && r.move == st.tableFlipMoves[0]
    else if |st.tableAceMoves| > 0 then r.Moved? && r.move == st.tableAceMoves[0]
    else if |st.drawAceMoves| > 0 then r.Moved? && r.move == st.drawAceMoves[0]
    else if |st.tableKingMoves| > 0 then r.Moved? && r.move == st.tableKingMoves[0]
    else if !NonePositive(ace, g, st) then r.Moved? && IsFirstPositive(ace, r.move, g, st)
    else if !NonePositive(table, g, st) then r.Moved? && IsFirstPositive(table, r.move, g, st)
    else if !NonePositive(deck, g, st) then r.Moved? && IsFirstPositive(deck, r.move, g, st)
    else r == Stuck
  }

  /** The second half of an iteration: play the chosen positive move, if there is one. */
  function PlayPositive(g: Game, st: GameState): (r: StepResult)
    requires SafeMoves(g, st) && OptionalDefined(g, st)
    ensures !r.Finished?
    ensures r.Moved? ==> r.move in AllMoves(st) && CanExecute(g, r.move)
                         && r.next == Execute(g, r.move) && Valid(r.next)
    ensures !NonePositive(st.aceStackMoves, g, st) ==>
      r.Moved? && IsFirstPositive(st.aceStackMoves, r.move, g, st)
    ensures NonePositive(st.aceStackMoves, g, st) && !NonePositive(st.tableMoves, g, st) ==>
      r.Moved? && IsFirstPositive(st.tableMoves, r.move, g, st)
    ensures NonePositive(st.aceStackMoves, g, st) && NonePositive(st.tableMoves, g, st)
            && !NonePositive(st.deckMoves, g, st) ==>
      r.Moved? && IsFirstPositive(st.deckMoves, r.move, g, st)
    ensures r.Stuck? <==>
      NonePositive(st.aceStackMoves, g, st) && NonePositive(st.tableMoves, g, st)
      && NonePositive(st.deckMoves, g, st)
  {
    match ChoosePositive(g, st)
    case Some(m) =>
      assert m in st.aceStackMoves || m in st.tableMoves || m in st.deckMoves;
      InAllMoves(st, m);
      Play(g, st, m)
    case None => Stuck
  }

  /** The decision of one iteration for a given state. */
  function Decide(g: Game, st: GameState): (r: StepResult)
    requires |st.aces| == 4 && SafeMoves(g, st) && OptionalDefined(g, st)
    ensures Policy(g, st, r)
    ensures r.Moved? ==> r.move in AllMoves(st) && CanExecute(g, r.move)
                         && r.next == Execute(g, r.move) && Valid(r.next)
  {
    var fs := GetFinalState(st);
    if fs != Unfinished then Finished(fs)
    else if |st.tableFlipMoves| > 0 then InAllMoves(st, st.tableFlipMoves[0]); Play(g, st, st.tableFlipMoves[0])
    else if |st.tableAceMoves| > 0 then InAllMoves(st, st.tableAceMoves[0]); Play(g, st, st.tableAceMoves[0])
    else if |st.drawAceMoves| > 0 then InAllMoves(st, st.drawAceMoves[0]); Play(g, st, st.drawAceMoves[0])
    else if |st.tableKingMoves| > 0 then InAllMoves(st, st.tableKingMoves[0]); Play(g, st, st.tableKingMoves[0])
    else PlayPositive(g, st)
  }

  /** One iteration of the loop of `solve` on a valid game: it stops exactly when the
      game is won or lost, and a move it takes is listed, executable and leaves a valid
      game. Which move it takes is `StepFollowsPolicy`. */
  function Step(g: Game): (r: StepResult)
    requires Valid(g)
    ensures r.Finished? <==> GetFinalState(GetGameState(g)) != Unfinished
    ensures r.Finished? ==> r.state == GetFinalState(GetGameState(g))
    ensures r.Moved? ==> r.move in AllMoves(GetGameState(g)) && CanExecute(g, r.move)
                         && r.next == Execute(g, r.move) && Valid(r.next)
  {
    StateOfValidGame(g);
    Decide(g, GetGameState(g))
  }

  /** An iteration plays the move the policy names, and gives up only when the policy
      does. */
  lemma StepFollowsPolicy(g: Game)
    requires Valid(g)
    ensures |GetGameState(g).aces| == 4 && OptionalDefined(g, GetGameState(g))
    ensures Policy(g, GetGameState(g), Step(g))
  {
    StateOfValidGame(g);
  }

  // ---------------------------------------------------------------- what the heuristic achieves

  /** A face-up run of a valid game holds at most thirteen cards: its numbers fall by one
      per card and stay between 1 and 13. So its length is never wrapped by an i8 cast. */
  lemma RunIsShort(g: Game, s: int)
    requires Valid(g) && 0 <= s < 7
    ensures |g.table[s].upturned| <= 13
    ensures WrapI8(|g.table[s].upturned|) == |g.table[s].upturned|
  {
    var up := g.table[s].upturned;
    if |up| > 0 {
      RunDescends(up, 0, |up| - 1);
      UpCard(g, s, 0);
      UpCard(g, s, |up| - 1);
    }
  }

  /** The move that turns up the top face-down card of stack s. */
  function TurnUpMove(g: Game, s: int): GameMove
    requires 0 <= s < |g.table|
  {
    GameMove(TableDownturned(s, |g.table[s].downturned| - 1), TableUpturned(s, 0))
  }

  /** Stack s shows no face-up card but has face-down ones: the flip scan offers to turn
      the top one up. */
  lemma FlipOffered(g: Game, s: int)
    requires 0 <= s < |g.table| && |g.table[s].upturned| == 0 && |g.table[s].downturned| > 0
    ensures TurnUpMove(g, s) in TableFlipMoves(g)
  {
    TableFlipMembers(g, TurnUpMove(g, s));
  }

  /** A listed table move of a whole run leaves the stack with its face-down cards. */
  lemma WholeRunToStack(g: Game, m: GameMove)
    requires Valid(g) && m.from.TableUpturned? && m.from.upturnedIndex == 0
    requires m in TableMoves(g, Targets(g.table))
    ensures CanExecute(g, m)
    ensures Execute(g, m).table[m.from.stackIndex] == TableStack(g.table[m.from.stackIndex].downturned, [])
  {
    var targets := Targets(g.table);
    TableMoveIsSafe(g, m);
    TableMovesMembers(g, targets, m);
    var s, i, f :| 0 <= s < |g.table| && 0 <= i < |g.table[s].upturned| && 0 <= f < |targets|
      && CanStack(targets[f].card, g.table[s].upturned[i])
      && m == GameMove(TableUpturned(s, i), targets[f].at);
    var t := TargetOf(g, targets, f);
    NoSelfTarget(g.table[s].upturned, 0);
    TakeWholeRun(g, m);
  }

  /** A listed foundation move of the only face-up card of a stack leaves the stack with
      its face-down cards. */
  lemma WholeRunToFoundation(g: Game, m: GameMove)
    requires Valid(g) && m.from.TableUpturned? && m.from.upturnedIndex == 0
    requires m in AceStackMoves(g)
    ensures CanExecute(g, m)
    ensures Execute(g, m).table[m.from.stackIndex] == TableStack(g.table[m.from.stackIndex].downturned, [])
  {
    AceStackIsSafe(g, m);
    AceStackMembers(g, m);
    TakeWholeRun(g, m);
  }

  /** A positive move of face-up cards takes the whole run of its stack. The stack is left
      with its face-down cards only: when there are some, the next flip scan offers to
      turn the top one up; when there are none, the stack is vacant and a king was
      queuing. */
  lemma PositiveRunMoveExposes(g: Game, st: GameState, m: GameMove)
    requires Valid(g) && m.from.TableUpturned?
    requires m in AceStackMoves(g) || m in TableMoves(g, Targets(g.table))
    ensures PositiveDefined(g, m) && CanExecute(g, m)
    ensures IsMovePositive(m, g, st) ==>
      var s, r := m.from.stackIndex, Execute(g, m);
      && r.table[s] == TableStack(g.table[s].downturned, [])
      && (|g.table[s].downturned| > 0 ==> TurnUpMove(r, s) in TableFlipMoves(r))
      && (|g.table[s].downturned| == 0 ==> st.queuingKings > 0)
  {
    if m in AceStackMoves(g) {
      AceStackIsSafe(g, m);
      AceStackMembers(g, m);
    } else {
      TableMoveIsSafe(g, m);
      TableMovesMembers(g, Targets(g.table), m);
    }
    if IsMovePositive(m, g, st) {
      var s := m.from.stackIndex;
      if m in AceStackMoves(g) {
        WholeRunToFoundation(g, m);
      } else {
        WholeRunToStack(g, m);
      }
      var r := Execute(g, m);
      if |g.table[s].downturned| > 0 {
        FlipOffered(r, s);
      }
    }
  }

  /** A listed deck move takes a draw card to the end of the run of one of the seven
      stacks. */
  lemma DeckMoveShape(g: Game, m: GameMove)
    requires Valid(g) && m in DeckMoves(g, Targets(g.table))
    ensures m.from.DrawDeck? && 0 <= m.from.deckIndex < |g.draw|
    ensures m.to.TableUpturned? && 0 <= m.to.stackIndex < 7
    ensures m.to.upturnedIndex == |g.table[m.to.stackIndex].upturned|
  {
    var targets := Targets(g.table);
    DeckMovesMembers(g, targets, m);
    var d, f :| 0 <= d < |g.draw| && 0 <= f < |targets| && CanStack(targets[f].card, g.draw[d])
      && m == GameMove(DrawDeck(d), targets[f].at);
    var t := TargetOf(g, targets, f);
  }

  /** A listed deck move lays a draw card on the end of a run, so the i8 comparison of the
      run's length always holds: such a move is positive exactly when the card would fit
      under the first face-up card of some stack. */
  lemma DeckMovePositive(g: Game, st: GameState, m: GameMove)
    requires Valid(g) && m in DeckMoves(g, Targets(g.table))
    ensures m.from.DrawDeck? && 0 <= m.from.deckIndex < |g.draw| && PositiveDefined(g, m)
    ensures IsMovePositive(m, g, st) <==>
      exists k :: 0 <= k < |g.table| && |g.table[k].upturned| > 0
                  && CanStack(g.table[k].upturned[0], g.draw[m.from.deckIndex])
  {
    DeckMoveShape(g, m);
    RunIsShort(g, m.to.stackIndex);
  }

  /** A move the policy plays either heads one of the four lists played without a
      judgement, or is judged positive. */
  lemma PolicyMoveSource(g: Game, st: GameState, r: StepResult)
    requires |st.aces| == 4 && OptionalDefined(g, st) && Policy(g, st, r) && r.Moved?
    ensures || r.move in st.tableFlipMoves || r.move in st.tableAceMoves
            || r.move in st.drawAceMoves || r.move in st.tableKingMoves
            || (PositiveDefined(g, r.move) && IsMovePositive(r.move, g, st))
  {
    var ace, table, deck := st.aceStackMoves, st.tableMoves, st.deckMoves;
    if |st.tableFlipMoves| + |st.tableAceMoves| + |st.drawAceMoves| + |st.tableKingMoves| == 0 {
      if !NonePositive(ace, g, st) {
        var i :| 0 <= i < |ace| && ace[i] == r.move && IsMovePositive(ace[i], g, st);
      } else if !NonePositive(table, g, st) {
        var i :| 0 <= i < |table| && table[i] == r.move && IsMovePositive(table[i], g, st);
      } else {
        var i :| 0 <= i < |deck| && deck[i] == r.move && IsMovePositive(deck[i], g, st);
      }
    }
  }

  /** The heuristic never approves a draw card for a foundation, so one iteration plays a
      draw card onto a foundation only through the draw-ace category: only an ace. */
  lemma StepPromotesOnlyDrawAces(g: Game)
    requires Valid(g)
    ensures var r := Step(g);
      r.Moved? && r.move.from.DrawDeck? && r.move.to.Ace? ==>
        0 <= r.move.from.deckIndex < |g.draw| && g.draw[r.move.from.deckIndex].number == 1
  {
    var st := GetGameState(g);
    var r := Step(g);
    if r.Moved? && r.move.from.DrawDeck? && r.move.to.Ace? {
      var m := r.move;
      StepFollowsPolicy(g);
      PolicyMoveSource(g, st, r);
      if m in st.tableFlipMoves {
        TableFlipMembers(g, m);
      } else if m in st.tableAceMoves {
        TableAceMembers(g, m);
      } else if m in st.drawAceMoves {
        DrawAceMembers(g, m);
      } else if m in st.tableKingMoves {
        TableKingMembers(g, m);
      }
    }
  }

  // ---------------------------------------------------------------- the loop

  datatype Outcome = Ended(state: GameFinalState) | GaveUp | OutOfFuel

  /** An iteration reports WON exactly when all four foundations are full, and never
      reports UNFINISHED. */
  lemma StepFinishes(g: Game)
    requires Valid(g)
    ensures Step(g).Finished? ==> Step(g).state != Unfinished
    ensures Step(g).Finished? ==> (Step(g).state == Won <==> AllFull(g))
  {
    WonIffComplete(g);
  }

  /** The loop of `solve`, for at most `fuel` iterations. It stops on a won or lost game
      and gives up, leaving the game as it is, when an iteration finds nothing to play. */
  function Solve(g: Game, fuel: nat): (r: (Outcome, Game))
    requires Valid(g)
    ensures Valid(r.1)
    ensures r.0 == Ended(Won) ==> AllFull(r.1)
    ensures r.0.Ended? ==> r.0.state != Unfinished && Step(r.1) == Finished(r.0.state)
    ensures r.0 == GaveUp ==> Step(r.1) == Stuck
    decreases fuel
  {
    if fuel == 0 then (OutOfFuel, g)
    else
      match Step(g)
      case Finished(s) =>
        StepFinishes(g);
        (Ended(s), g)
      case Stuck => (GaveUp, g)
      case Moved(_, next) => Solve(next, fuel - 1)
  }

  /** The first iteration decides how the loop goes on: with fuel left, a won or lost
      game ends it at once with that state, an iteration with nothing to play makes it
      give up on the game as it is, and it runs out of fuel only after a move. */
  lemma SolveFirstIteration(g: Game, fuel: nat)
    requires Valid(g)
    ensures fuel > 0 && Step(g).Finished? ==> Solve(g, fuel) == (Ended(Step(g).state), g)
    ensures fuel > 0 && Step(g).Stuck? ==> Solve(g, fuel) == (GaveUp, g)
    ensures Solve(g, fuel).0 == OutOfFuel ==> fuel == 0 || Step(g).Moved?
  {
  }
}
