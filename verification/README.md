# A Dafny model of a Klondike solitaire solver

This project models the game engine of a greedy Klondike solitaire solver written in
Rust. It covers four parts:

- cards and suits (`src/solitare/card.rs`);
- the deal, the seven move generators and `get_game_state` (`src/solitare/solitare.rs`);
- move execution and the won/lost/unfinished classification (`src/solitare/state.rs`);
- one iteration of the solver loop, with its positivity heuristic (`src/solver.rs`).

A game is a record of seven tableau stacks, four foundations and a draw pile:

- Each tableau stack has a face-down part and a face-up run.
- The solver looks at a game through a `GameState`. This is the seven move lists, in
  the fixed scan order of the generators, plus the count of "queuing" kings.

One iteration of the solver does one of two things:

- It stops when the game is won or lost.
- Otherwise it executes the first move of the first non-empty category among flips,
  table aces, draw aces and king moves. Failing those, it executes the first move that
  `is_move_positive` approves among the ace-stack, table and deck moves.

The model is functional. Every operation is a pure function over immutable datatypes,
and the loop is a fuel-bounded iteration of the step function.

The central results are:

- **The invariant `Games.Valid`.** The 52 cards are partitioned over the containers.
  Foundation k holds suit k from the ace up. Face-up runs alternate colour and descend
  by one. The draw pile never exceeds 24 cards.
- **The deal.** The deal of any shuffle of the ids 0..51 establishes the invariant.
- **Safety.** Every move the generators list passes every assertion and bounds check
  of `execute`, and preserves the invariant.
- **Execution conserves cards.** Execution never creates or loses a card.
- **Exact move lists.** Each generator lists exactly the moves its membership lemma
  describes, in scan order.
- **Winning.** On a valid game, `get_final_state` says WON exactly when all four
  foundations are full.
- **The heuristic.** What the heuristic approves, and what an approved move achieves.

Modules and files:

| file | module | contents |
|---|---|---|
| `seqs.dfy` | `Seqs` | the scan combinator `Concat`, multiset sums, ordering |
| `card.dfy` | `Cards` | suits, cards, colours, the `as i8` cast |
| `game.dfy` | `Games` | stacks, games, the deal, the invariant |
| `state.dfy` | `State` | positions, moves, `execute`, `get_final_state` |
| `movegen.dfy` | `MoveGen` | the seven generators and `get_game_state` |
| `safety.dfy` | `Safety` | listed moves are executable and preserve the invariant |
| `endgame.dfy` | `Endgame` | WON exactly when the foundations are full |
| `solver.dfy` | `Solver` | `is_move_positive`, one iteration, the loop |
| `order.dfy` | `Order` | the generators' scan order |

Modelling choices:

- **Integers.** The source's `i8` values are unbounded integers. A valid game never
  produces an index outside the 8-bit range. Two places apply an explicit `as i8`
  cast (`Cards.WrapI8`):
  - the queuing-king count;
  - the heuristic's run-length comparison.
- **Division.** `Card::new` divides by 13 toward zero, as Rust does. It takes the
  remainder with `rem_euclid`, which is Dafny's `%`.
- **The suit field.** A card stores its suit index and number. The suit the source
  stores beside them is always `from_index(suit_index)`, so here it is the derived
  `Cards.SuitOf`.
- **Panics.** The asserts, `unreachable!` arms and vector bounds checks of `execute`
  become the preconditions `State.CanTake` and `State.CanPut`.
  `Solver.PositiveDefined` does the same for `is_move_positive`.
- **The HashMap.** `get_ace_stack_moves` collects foundation tops in a `HashMap`. This
  is `MoveGen.AceMap`: foundations are inserted in index order, and a later one
  overwrites an earlier one under the same suit.
- **Destination of a draw card.** The comment at `src/solver.rs:165` speaks of "every
  other" root card. The loop below it scans every stack, the destination included. The
  model follows the loop.
- **The draw-card rule as written.** The heuristic approves a draw card when some
  stack's first face-up card is one higher and of the other colour. That is, when that
  card could take the draw card, not when the draw card could take it.

## Model

| member | source | states |
|---|---|---|
| Cards.FromIndex | src/solitare/card.rs:41-52 | indices 0, 1, 2, 3 give the suits in enum order; every index outside 0..2 gives Spades |
| Cards.FromIndexInjective | src/solitare/card.rs:41-52 | on 0..3 distinct indices give distinct suits |
| Cards.SameColor | src/solitare/card.rs:54-60 | true exactly when both suits are red or both are black |
| Cards.SameColorIsEquivalence | src/solitare/card.rs:54-60 | same_color is reflexive, symmetric and transitive, and any three suits have two of one colour (two classes), with hearts and spades in different classes |
| Cards.NewCard | src/solitare/card.rs:14-22 | every i8 id gives a number in 1..13; an id in 0..51 gives a deck card whose id is the input |
| Cards.NewCardOfCardId | src/solitare/card.rs:14-22 | every deck card is made from exactly one id in 0..51, its own |
| Cards.NewCardInjective | src/solitare/card.rs:16-18 | distinct ids in 0..51 give distinct cards |
| Cards.WrapI8 | src/solitare/solitare.rs:190 | the `as i8` cast lands in -128..127, differs from its input by a multiple of 256, and leaves 8-bit values alone |
| Games.Deal | src/solitare/solitare.rs:50-89 | stack i gets i cards face down and one face up, the four foundations start empty, and the draw pile is the cards of the last 24 ids in order |
| Games.DealConsumesInOrder | src/solitare/solitare.rs:51-79 | stack i's cards, face-down part first, are the cards of the ids at offsets 0+1+..+i up to the next stack's offset, in order |
| Games.DealUsesEveryIdOnce | src/solitare/solitare.rs:50-89 | the dealt game holds exactly the multiset of the cards of the 52 input ids |
| Games.DealIsValid | src/solitare/solitare.rs:23-89 | dealing any permutation of 0..51 gives a game in which the invariant holds |
| Games.DealCorners | src/solitare/solitare.rs:52-87 | the first id gives stack 0's only card, the 28th gives stack 6's face-up card, and the 29th and 52nd give the two ends of the draw pile |
| State.GetFinalState | src/solitare/state.rs:19-45 | UNFINISHED exactly when some list offers a move; WON exactly when none does and all four foundations are full; LOST exactly when none does and some foundation is not full |
| State.Take | src/solitare/state.rs:150-173 | a face-down source loses exactly card k and keeps the rest in order; a face-up source loses exactly the suffix from i and keeps the prefix; a draw source loses exactly card d; every other stack and every foundation is unchanged |
| State.Put | src/solitare/state.rs:177-218 | a face-up target gets the cards spliced in at j with the rest kept in order (appended when j is the run's length); a foundation target gets the one card pushed; nothing else changes |
| State.TakeConservesCards | src/solitare/state.rs:150-173 | the cards taken plus the cards left are exactly the cards before |
| State.PutConservesCards | src/solitare/state.rs:177-218 | the cards after are exactly the cards before plus the cards put |
| State.Execute | src/solitare/state.rs:145-219 | the multiset of all cards in the tableau, foundations and draw pile is unchanged |
| MoveGen.FirstVacant | src/solitare/solitare.rs:193-202 | the index of the first stack with no cards at all, or the number of stacks when there is none |
| MoveGen.TargetsMembers | src/solitare/solitare.rs:328-345 | a target exists exactly for each stack with a face-up run: its last card, at position (s, run length) |
| MoveGen.OntoMembers | src/solitare/solitare.rs:276-289 | a card gets a move onto a target exactly when the colours differ and the target's number is one higher |
| MoveGen.TableFlipMembers | src/solitare/solitare.rs:92-109 | a flip move exists exactly for each stack with no face-up card and some face-down card, from the top face-down card to face-up index 0 |
| MoveGen.TableAceMembers | src/solitare/solitare.rs:110-132 | a table ace move exists exactly for each run ending in an ace, from the run's last index to that card's foundation |
| MoveGen.DrawAceMembers | src/solitare/solitare.rs:133-149 | a draw ace move exists exactly for each ace in the draw pile, to its foundation |
| MoveGen.TableKingMembers | src/solitare/solitare.rs:150-215 | king moves exist only when some stack is vacant, and then exactly one per stack headed by a king over face-down cards, to index 0 of the first vacant stack; draw-pile kings never get a move |
| MoveGen.QueuingKingsCount | src/solitare/solitare.rs:157-190 | the queuing count is the number of table kings over face-down cards plus the number of kings in the draw pile, cast to i8 |
| MoveGen.AceMapDomain | src/solitare/solitare.rs:220-231 | a suit is in the map exactly when some non-empty foundation ends in a card of that suit |
| MoveGen.AceMapValue | src/solitare/solitare.rs:220-231 | the map holds, for a suit, the number of the last card of the last foundation ending in that suit |
| MoveGen.AceStackMembers | src/solitare/solitare.rs:216-266 | an ace-stack move exists exactly for each run end, and each draw card, whose suit is in the map and whose number is one above the map's entry; it goes to that card's foundation |
| MoveGen.TableMovesMembers | src/solitare/solitare.rs:267-294 | a table move exists exactly for each face-up card and target where the card may be laid on the target's card; it takes the card and everything above it |
| MoveGen.DeckMovesMembers | src/solitare/solitare.rs:295-322 | a deck move exists exactly for each draw card and target where the card may be laid on the target's card |
| Safety.NoSelfTarget | src/solitare/solitare.rs:272-291 | no card of a face-up run may be laid on that run's own last card, so a table move never targets its own stack |
| Safety.RunDescends | src/solitare/solitare.rs:272-291 | down a face-up run the numbers fall by exactly one per card |
| Safety.TurnUp | src/solitare/state.rs:151-188 | a flip moves the top face-down card of an empty run to become the whole run |
| Safety.LiftRunEnd | src/solitare/state.rs:157-211 | moving a run's last card to a foundation shortens the run by that card and pushes it on the foundation |
| Safety.LiftDrawCard | src/solitare/state.rs:168-211 | moving a draw card to a foundation removes it from the pile and pushes it on the foundation |
| Safety.MoveRun | src/solitare/state.rs:157-188 | moving a suffix of one run onto the end of another run removes it from the first and appends it, in order, to the second |
| Safety.DealOnto | src/solitare/state.rs:168-188 | moving a draw card onto the end of a run removes it from the pile and appends it to the run |
| Safety.FlipStackIsSafe | src/solitare/state.rs:150-190 | turning up the top face-down card of a stack with no face-up card passes execute's checks and keeps the invariant |
| Safety.PromoteRunEnd | src/solitare/state.rs:157-211 | moving a run's last card onto its suit's foundation, when it is the foundation's next card, passes execute's checks (including the number assertion) and keeps the invariant |
| Safety.PromoteDrawCard | src/solitare/state.rs:168-211 | moving a draw card onto its suit's foundation, when it is the foundation's next card, passes execute's checks and keeps the invariant |
| Safety.RunToStack | src/solitare/state.rs:157-188 | moving the run of one stack from index i onto the end of another stack's run, when its first card may be laid there or that run is empty, passes execute's checks and keeps the invariant |
| Safety.DrawToStack | src/solitare/state.rs:168-188 | laying a draw card on the end of a run whose last card may take it passes execute's checks and keeps the invariant |
| Safety.AceFromStackIsSafe | src/solitare/state.rs:157-211 | promoting the ace that ends a run passes execute's checks, its foundation being still empty on a valid game, and keeps the invariant |
| Safety.FlipIsSafe | src/solitare/solitare.rs:92-109 | every flip move is executable and preserves the invariant |
| Safety.TableAceIsSafe | src/solitare/solitare.rs:110-132 | every table ace move is executable and preserves the invariant |
| Safety.DrawAceIsSafe | src/solitare/solitare.rs:133-149 | every draw ace move is executable and preserves the invariant |
| Safety.TableKingIsSafe | src/solitare/solitare.rs:150-215 | every king move is executable and preserves the invariant |
| Safety.AceStackIsSafe | src/solitare/solitare.rs:216-266 | every ace-stack move is executable and preserves the invariant |
| Safety.TableMoveIsSafe | src/solitare/solitare.rs:267-294 | every table move is executable and preserves the invariant |
| Safety.DeckMoveIsSafe | src/solitare/solitare.rs:295-322 | every deck move is executable and preserves the invariant |
| Safety.GeneratedMovesAreSafe | src/solitare/solitare.rs:325-364 | on a valid game every move get_game_state lists passes all of execute's assertions and bounds checks, and the result is valid again |
| Endgame.FullFoundationHolds | src/solitare/solitare.rs:376 | on a valid game with all four foundations full, every deck card is on its suit's foundation |
| Endgame.FullFoundationsLeaveNothing | src/solitare/solitare.rs:376 | on a valid game with all four foundations full, every stack is vacant and the draw pile is empty |
| Endgame.NothingLeftNoMoves | src/solitare/solitare.rs:325-364 | a game with vacant stacks and an empty draw pile offers no move in any category |
| Endgame.WonIffComplete | src/solitare/state.rs:30-38 | on a valid game the final state is WON exactly when all four foundations are full |
| Solver.RootAccepts | src/solver.rs:166-178 | true exactly when some stack's first face-up card is one higher than the card and of the other colour |
| Solver.IsMovePositive | src/solver.rs:119-190 | a face-up source is positive exactly when it is the whole run and the stack has face-down cards or a king is queuing; a draw source is positive exactly when it goes to index (run length cast to i8) of a stack and some stack's first face-up card is one higher and of the other colour; a draw card going to a foundation never is |
| Solver.OptionalMovesDefined | src/solver.rs:127-160 | every ace-stack, table and deck move of a valid game reaches a verdict in is_move_positive without panicking |
| Solver.FirstPositive | src/solver.rs:58-89 | the result is a positive move at some position with no positive move before it; none exactly when no move of the list is positive |
| Solver.ChoosePositive | src/solver.rs:57-89 | the first positive ace-stack move if there is one; else the first positive table move; else the first positive deck move; none exactly when no move of the three lists is positive |
| Solver.PlayPositive | src/solver.rs:57-89 | it plays the move of that same order, which is listed, executable and leaves a valid game, and it gives up exactly when no move of the three lists is positive |
| Solver.Decide | src/solver.rs:6-114 | it follows the policy: a won or lost game stops; otherwise the first flip, else the first table ace, else the first draw ace, else the first king move, else the first positive ace-stack, table or deck move in that order, else give up; a move played is executable and leaves a valid game |
| Solver.Step | src/solver.rs:5-116 | on a valid game it stops exactly when get_final_state is not UNFINISHED, reporting that state; a move it plays is listed, executable and leaves a valid game |
| Solver.StepFollowsPolicy | src/solver.rs:5-116 | an iteration on a valid game plays exactly the move the policy names, and gives up exactly when the policy does |
| Solver.PolicyMoveSource | src/solver.rs:14-89 | a move the policy plays heads the flip, table-ace, draw-ace or king list, or is judged positive |
| Solver.Solve | src/solver.rs:4-117 | every game the loop reaches is valid; it ends with WON or LOST only on a game the iteration judges finished with that state, WON only with all four foundations full; it gives up only on a game where the iteration finds nothing to play |
| Solver.SolveFirstIteration | src/solver.rs:7-117 | with fuel left, a won or lost game ends the loop at once with that state, an iteration with nothing to play makes it give up on the unchanged game, and running out of fuel needs a move first |
| Solver.RunIsShort | src/solver.rs:163 | a face-up run of a valid game has at most 13 cards, so the i8 cast of its length is exact |
| Solver.PositiveRunMoveExposes | src/solver.rs:133-147 | a positive move of face-up cards leaves its stack with only its face-down cards: when there are some, the next flip scan offers to turn the top one up; when there are none, a king was queuing |
| Solver.DeckMovePositive | src/solver.rs:158-179 | a listed deck move is positive exactly when some stack's first face-up card is one higher than the draw card and of the other colour |
| Solver.StepPromotesOnlyDrawAces | src/solver.rs:36-89 | an iteration moves a draw card to a foundation only when that card is an ace |
| Order.TargetsOrdered | src/solitare/solitare.rs:328-345 | targets are listed in increasing stack order |
| Order.TableFlipOrdered | src/solitare/solitare.rs:96-106 | flip moves are listed in increasing stack order |
| Order.TableAceOrdered | src/solitare/solitare.rs:114-129 | table ace moves are listed in increasing stack order |
| Order.DrawAceOrdered | src/solitare/solitare.rs:137-146 | draw ace moves are listed in increasing draw-pile order |
| Order.TableMovesOrdered | src/solitare/solitare.rs:272-291 | table moves are listed by source stack, then position in the run, then target stack |
| Order.DeckMovesOrdered | src/solitare/solitare.rs:300-319 | deck moves are listed by draw-pile index, then target stack |
| Order.FirstPositiveIsEarliest | src/solver.rs:58-89 | in a list in scan order, the chosen move comes before every other positive move of the list |

## Left out

- The shuffle with `thread_rng` (`src/solitare/solitare.rs:23-24`). The deal takes the
  52 ids as its input, and `Games.DealIsValid` covers every permutation of 0..51.
- All `println!` tracing, including the dump of every move and its verdict when the
  solver gives up. It is output only.
- The explanation strings `is_move_positive` returns beside its verdict. They are
  output only.
- `debug_move` and `get_all_moves_youch`. They are debug output. `State.AllMoves`
  joins the seven lists in the same order.
- The `next_card` field, the `PhantomData` lifetimes and the `Debug` impls of cards.
  They are never read by the game logic.
- `src/main.rs` is not part of this model. It only starts the process.
- Solver.Solve: the loop is bounded by a fuel count. The source loop has no decreasing
  measure, and the model does not prove that it ends.
- Solver.Solve: the contract relates the outcome to the first and the last iteration
  only. It does not state that running out of fuel means that every one of the `fuel`
  iterations moved. That statement relates `fuel` nested iterations, and its proof
  exceeds the verifier's resource bound.
- Cards.NewCard: the stored `suit` field is not a separate field. It is always
  `from_index(suit_index)`, and `Cards.SuitOf` derives it.
- The `as i8` casts of stack, run, pile and foundation indices are not wrapped. On a
  valid game these values are at most 52, so none of them wraps. Only the queuing-king
  count and the heuristic's run-length comparison are cast explicitly.
- Order: ace-stack and king moves have no ordering lemma. The ace-stack list is the
  table part followed by the draw part, each scanned by index. Every king move goes to
  the same target, in table-king order. `MoveGen.AceStackMoves` and
  `MoveGen.TableKingMoves` are written in that order.
