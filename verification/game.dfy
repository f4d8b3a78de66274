/** The game's containers and the deal (src/solitare/solitare.rs: Game, TableStack,
    AceStack, Game::new), and the invariant every generated move preserves. */
module Games {
  import opened Seqs
  import opened Cards

  /** A tableau stack: face-down cards under a face-up run. */
  datatype TableStack = TableStack(downturned: seq<Card>, upturned: seq<Card>)

  /** Seven tableau stacks, four foundations (the source's ace stacks) and the draw pile. */
  datatype Game = Game(table: seq<TableStack>, aces: seq<seq<Card>>, draw: seq<Card>)

  /** The shape fixed by the source's array types. */
  predicate Shaped(g: Game) {
    |g.table| == 7 && |g.aces| == 4
  }

  function StackCards(st: TableStack): multiset<Card> {
    multiset(st.downturned) + multiset(st.upturned)
  }

  function PileCards(p: seq<Card>): multiset<Card> {
    multiset(p)
  }

  /** Every card the game owns, wherever it is. */
  function AllCards(g: Game): multiset<Card> {
    Total(g.table, StackCards) + Total(g.aces, PileCards) + multiset(g.draw)
  }

  /** AceStack::is_full. */
  function IsFull(p: seq<Card>): bool {
    |p| >= 13
  }

  predicate IsVacant(st: TableStack) {
    |st.upturned| == 0 && |st.downturned| == 0
  }

  // ---------------------------------------------------------------- the deal

  predicate AllI8(ids: seq<int>) {
    forall i :: 0 <= i < |ids| ==> IsI8(ids[i])
  }

  /** The card made from each id, in order. */
  function CardsOf(ids: seq<int>): (cs: seq<Card>)
    requires AllI8(ids)
    ensures |cs| == |ids|
    ensures forall i :: 0 <= i < |ids| ==> cs[i] == NewCard(ids[i])
  {
    seq(|ids|, i requires 0 <= i < |ids| => NewCard(ids[i]))
  }

  /** The 52 cards, one per id. */
  function FullDeck(): seq<Card> {
    CardsOf(Range(52))
  }

  /** How many cards the deal hands out before stack i: 0 + 1 + ... + i. */
  const Offsets: seq<int> := [0, 1, 3, 6, 10, 15, 21, 28]

  /** Stack i gets the next i cards face down, then one card face up. */
  function DealStack(cs: seq<Card>, i: int): TableStack
    requires |cs| == 52 && 0 <= i < 7
  {
    TableStack(cs[Offsets[i]..Offsets[i] + i], [cs[Offsets[i] + i]])
  }

  /** Game::new with the shuffle taken as the input sequence of ids: stack i gets i
      cards face down and one face up, the foundations start empty and the draw pile
      takes the last 24 ids in order. */
  function Deal(ids: seq<int>): (g: Game)
    requires |ids| == 52 && AllI8(ids)
    ensures Shaped(g)
    ensures forall i :: 0 <= i < 7 ==> |g.table[i].downturned| == i && |g.table[i].upturned| == 1
    ensures forall k :: 0 <= k < 4 ==> g.aces[k] == []
    ensures g.draw == CardsOf(ids)[28..]
  {
    var cs := CardsOf(ids);
    Game(seq(7, i requires 0 <= i < 7 => DealStack(cs, i)), [[], [], [], []], cs[28..])
  }

  lemma OffsetsStep()
    ensures Offsets[0] == 0 && Offsets[7] == 28
    ensures forall i :: 0 <= i < 7 ==> Offsets[i + 1] == Offsets[i] + i + 1
  {
  }

  /** Stack i is dealt the cards between offsets i and i + 1, face-down part first. */
  lemma DealStackSlice(cs: seq<Card>, i: int)
    requires |cs| == 52 && 0 <= i < 7
    ensures 0 <= Offsets[i] <= Offsets[i + 1] <= 28
    ensures DealStack(cs, i).downturned + DealStack(cs, i).upturned == cs[Offsets[i]..Offsets[i + 1]]
  {
    OffsetsStep();
    var o := Offsets[i];
    assert cs[o..o + i + 1] == cs[o..o + i] + [cs[o + i]];
  }

  /** The deal consumes the ids in order: stack 0's cards, then stack 1's, ..., stack 6's
      (each face-down part before its face-up card), then the draw pile. */
  lemma DealConsumesInOrder(ids: seq<int>, i: int)
    requires |ids| == 52 && AllI8(ids) && 0 <= i < 7
    ensures Deal(ids).table[i].downturned + Deal(ids).table[i].upturned
         == CardsOf(ids)[Offsets[i]..Offsets[i + 1]]
  {
    var cs := CardsOf(ids);
    assert Deal(ids).table[i] == DealStack(cs, i);
    DealStackSlice(cs, i);
  }

  // ---------------------------------------------------------------- the invariant

  /** Foundation k holds the cards of suit k from the ace up, at most a full suit. */
  predicate IsFoundation(p: seq<Card>, k: int) {
    |p| <= 13 && forall i :: 0 <= i < |p| ==> p[i] == Card(k, i + 1)
  }

  /** A face-up run: each card may be laid on the one below it. */
  predicate IsRun(up: seq<Card>) {
    forall i :: 0 < i < |up| ==> CanStack(up[i - 1], up[i])
  }

  /** What holds of every game the solver reaches: the 52 cards are partitioned over
      the containers, foundations ascend from the ace, face-up runs alternate colour
      and descend by one, and the draw pile never exceeds its dealt size. */
  predicate Valid(g: Game) {
    && Shaped(g)
    && |g.draw| <= 24
    && AllCards(g) == multiset(FullDeck())
    && (forall k :: 0 <= k < 4 ==> IsFoundation(g.aces[k], k))
    && (forall s :: 0 <= s < 7 ==> IsRun(g.table[s].upturned))
  }

  /** A shuffle: the 52 ids 0..51 in some order. */
  predicate IsShuffle(ids: seq<int>) {
    |ids| == 52 && multiset(ids) == multiset(Range(52))
  }

  // ---------------------------------------------------------------- lemmas

  lemma ShuffleIsI8(ids: seq<int>)
    requires IsShuffle(ids)
    ensures AllI8(ids)
    ensures forall i :: 0 <= i < 52 ==> 0 <= ids[i] < 52
  {
    forall i | 0 <= i < 52
      ensures 0 <= ids[i] < 52
    {
      assert ids[i] in multiset(Range(52));
    }
  }

  lemma {:induction false} CardsOfSlice(ids: seq<int>, a: int, b: int)
    requires AllI8(ids) && 0 <= a <= b <= |ids|
    ensures AllI8(ids[a..b]) && CardsOf(ids[a..b]) == CardsOf(ids)[a..b]
  {
  }

  /** How often a card occurs among the cards of some deck ids: as often as its id. */
  lemma {:induction false} CardsOfCount(s: seq<int>, c: Card)
    requires forall i :: 0 <= i < |s| ==> 0 <= s[i] < 52
    ensures AllI8(s)
    ensures multiset(CardsOf(s))[c] == if IsDeckCard(c) then multiset(s)[CardId(c)] else 0
    decreases |s|
  {
    if |s| > 0 {
      var n := |s| - 1;
      CardsOfCount(s[..n], c);
      assert s == s[..n] + [s[n]];
      assert CardsOf(s) == CardsOf(s[..n]) + [NewCard(s[n])];
      if IsDeckCard(c) && CardId(c) == s[n] {
        NewCardOfCardId(c);
      }
    }
  }

  /** Rearranging the deck ids rearranges the cards. */
  lemma CardsOfPermutation(a: seq<int>, b: seq<int>)
    requires forall i :: 0 <= i < |a| ==> 0 <= a[i] < 52
    requires forall i :: 0 <= i < |b| ==> 0 <= b[i] < 52
    requires multiset(a) == multiset(b)
    ensures AllI8(a) && AllI8(b)
    ensures multiset(CardsOf(a)) == multiset(CardsOf(b))
  {
    forall c: Card
      ensures multiset(CardsOf(a))[c] == multiset(CardsOf(b))[c]
    {
      CardsOfCount(a, c);
      CardsOfCount(b, c);
    }
  }

  /** No card occurs twice in the deck. */
  lemma FullDeckCountsAtMostOne(c: Card)
    ensures multiset(FullDeck())[c] <= 1
  {
    var d := FullDeck();
    forall a, b | 0 <= a < b < |d|
      ensures d[a] != d[b]
    {
      NewCardInjective(a, b);
    }
    DistinctCountsAtMostOne(d, c);
  }

  /** Exactly the deck cards are in the deck. */
  lemma FullDeckMembers(c: Card)
    ensures c in FullDeck() <==> IsDeckCard(c)
  {
    if IsDeckCard(c) {
      NewCardOfCardId(c);
      assert FullDeck()[CardId(c)] == c;
    }
  }

  lemma DealStackCards(cs: seq<Card>, i: int)
    requires |cs| == 52 && 0 <= i < 7
    ensures 0 <= Offsets[i] <= Offsets[i + 1] <= 28
    ensures StackCards(DealStack(cs, i)) == multiset(cs[Offsets[i]..Offsets[i + 1]])
  {
    DealStackSlice(cs, i);
    var st := DealStack(cs, i);
    assert multiset(st.downturned + st.upturned) == multiset(st.downturned) + multiset(st.upturned);
  }

  lemma {:induction false} TotalStep<T, U>(xs: seq<T>, n: int, f: T -> multiset<U>)
    requires 0 < n <= |xs|
    ensures Total(xs[..n], f) == Total(xs[..n - 1], f) + f(xs[n - 1])
  {
    assert xs[..n][..n - 1] == xs[..n - 1];
  }

  /** A prefix is a shorter prefix followed by the slice between them. */
  lemma PrefixSplit<T>(s: seq<T>, a: int, b: int)
    requires 0 <= a <= b <= |s|
    ensures multiset(s[..b]) == multiset(s[..a]) + multiset(s[a..b])
  {
    assert s[..b] == s[..a] + s[a..b];
  }

  /** The stacks dealt before stack n hold exactly the first Offsets[n] cards. */
  lemma {:induction false} DealtStacksCards(cs: seq<Card>, table: seq<TableStack>, n: int)
    requires |cs| == 52 && |table| == 7 && 0 <= n <= 7
    requires forall i :: 0 <= i < 7 ==> table[i] == DealStack(cs, i)
    ensures 0 <= Offsets[n] <= 28
    ensures Total(table[..n], StackCards) == multiset(cs[..Offsets[n]])
    decreases n
  {
    OffsetsStep();
    if n > 0 {
      var i := n - 1;
      DealtStacksCards(cs, table, i);
      DealStackCards(cs, i);
      TotalStep(table, n, StackCards);
      assert table[i] == DealStack(cs, i);
      PrefixSplit(cs, Offsets[i], Offsets[n]);
    }
  }

  /** Exchanging one part of a three-part sum for another. */
  lemma SwapPart(a: multiset<Card>, a': multiset<Card>, b: multiset<Card>, d: multiset<Card>,
                 out: multiset<Card>, inn: multiset<Card>)
    requires a' + out == a + inn
    ensures (a' + b + d) + out == (a + b + d) + inn
  {
    assert forall c :: ((a' + b + d) + out)[c] == ((a + b + d) + inn)[c] by {
      forall c ensures ((a' + b + d) + out)[c] == ((a + b + d) + inn)[c] {
        assert (a' + out)[c] == (a + inn)[c];
      }
    }
  }

  /** Replacing stack s changes the game's cards by exactly the two stacks' difference. */
  lemma ReplaceStack(g: Game, s: int, st: TableStack)
    requires 0 <= s < |g.table|
    ensures AllCards(g.(table := g.table[s := st])) + StackCards(g.table[s])
         == AllCards(g) + StackCards(st)
  {
    TotalUpdate(g.table, s, st, StackCards);
    SwapPart(Total(g.table, StackCards), Total(g.table[s := st], StackCards),
             Total(g.aces, PileCards), multiset(g.draw), StackCards(g.table[s]), StackCards(st));
  }

  /** Replacing foundation a changes the game's cards by exactly the two piles' difference. */
  lemma ReplacePile(g: Game, a: int, p: seq<Card>)
    requires 0 <= a < |g.aces|
    ensures AllCards(g.(aces := g.aces[a := p])) + multiset(g.aces[a])
         == AllCards(g) + multiset(p)
  {
    TotalUpdate(g.aces, a, p, PileCards);
    var t, x, x', d := Total(g.table, StackCards), Total(g.aces, PileCards),
                       Total(g.aces[a := p], PileCards), multiset(g.draw);
    assert x' + PileCards(g.aces[a]) == x + PileCards(p);
    assert forall c :: ((t + x' + d) + multiset(g.aces[a]))[c] == ((t + x + d) + multiset(p))[c] by {
      forall c ensures ((t + x' + d) + multiset(g.aces[a]))[c] == ((t + x + d) + multiset(p))[c] {
        assert (x' + PileCards(g.aces[a]))[c] == (x + PileCards(p))[c];
      }
    }
  }

  /** Taking cards out of stack s leaves the game short of exactly those cards. */
  lemma ShrinkStack(g: Game, s: int, st: TableStack, cards: multiset<Card>)
    requires 0 <= s < |g.table|
    requires StackCards(g.table[s]) == StackCards(st) + cards
    ensures AllCards(g.(table := g.table[s := st])) + cards == AllCards(g)
  {
    ReplaceStack(g, s, st);
    var x, y, n := AllCards(g.(table := g.table[s := st])), AllCards(g), StackCards(st);
    assert forall c :: (x + cards)[c] == y[c] by {
      forall c ensures (x + cards)[c] == y[c] {
        assert (x + (n + cards))[c] == (y + n)[c];
      }
    }
  }

  /** Laying cards onto stack s adds exactly those cards to the game. */
  lemma GrowStack(g: Game, s: int, st: TableStack, cards: multiset<Card>)
    requires 0 <= s < |g.table|
    requires StackCards(st) == StackCards(g.table[s]) + cards
    ensures AllCards(g.(table := g.table[s := st])) == AllCards(g) + cards
  {
    ReplaceStack(g, s, st);
    var x, y, o := AllCards(g.(table := g.table[s := st])), AllCards(g), StackCards(g.table[s]);
    assert forall c :: x[c] == (y + cards)[c] by {
      forall c ensures x[c] == (y + cards)[c] {
        assert (x + o)[c] == (y + (o + cards))[c];
      }
    }
  }

  /** Laying cards onto foundation a adds exactly those cards to the game. */
  lemma GrowPile(g: Game, a: int, cards: seq<Card>)
    requires 0 <= a < |g.aces|
    ensures AllCards(g.(aces := g.aces[a := g.aces[a] + cards])) == AllCards(g) + multiset(cards)
  {
    var p := g.aces[a];
    ReplacePile(g, a, p + cards);
    var x, y := AllCards(g.(aces := g.aces[a := p + cards])), AllCards(g);
    assert multiset(p + cards) == multiset(p) + multiset(cards);
    assert forall c :: x[c] == (y + multiset(cards))[c] by {
      forall c ensures x[c] == (y + multiset(cards))[c] {
        assert (x + multiset(p))[c] == (y + (multiset(p) + multiset(cards)))[c];
      }
    }
  }

  lemma {:induction false} TotalOfEmpties<T, U>(xs: seq<T>, f: T -> multiset<U>)
    requires forall i :: 0 <= i < |xs| ==> f(xs[i]) == multiset{}
    ensures Total(xs, f) == multiset{}
    decreases |xs|
  {
    if |xs| > 0 {
      TotalOfEmpties(xs[..|xs| - 1], f);
    }
  }

  /** Every id is dealt exactly once: the game holds precisely the cards of the input. */
  lemma DealUsesEveryIdOnce(ids: seq<int>)
    requires |ids| == 52 && AllI8(ids)
    ensures AllCards(Deal(ids)) == multiset(CardsOf(ids))
  {
    var g := Deal(ids);
    var cs := CardsOf(ids);
    DealtTableCards(ids);
    TotalOfEmpties(g.aces, PileCards);
    PrefixSplit(cs, 28, 52);
    assert cs[..52] == cs;
  }

  /** The seven stacks are dealt the first 28 cards. */
  lemma DealtTableCards(ids: seq<int>)
    requires |ids| == 52 && AllI8(ids)
    ensures Total(Deal(ids).table, StackCards) == multiset(CardsOf(ids)[..28])
  {
    var g := Deal(ids);
    var cs := CardsOf(ids);
    assert Offsets[7] == 28;
    assert forall i :: 0 <= i < 7 ==> g.table[i] == DealStack(cs, i);
    DealtStacksCards(cs, g.table, 7);
    assert g.table[..7] == g.table;
  }

  /** Dealing a shuffle gives a game in which the invariant holds. */
  lemma DealIsValid(ids: seq<int>)
    requires IsShuffle(ids)
    ensures AllI8(ids) && Valid(Deal(ids))
  {
    ShuffleIsI8(ids);
    DealUsesEveryIdOnce(ids);
    CardsOfPermutation(ids, Range(52));
  }

  lemma DealCorners(ids: seq<int>)
    requires |ids| == 52 && AllI8(ids)
    ensures Deal(ids).table[0] == TableStack([], [NewCard(ids[0])])
    ensures Deal(ids).table[6].upturned == [NewCard(ids[27])]
    ensures Deal(ids).draw[0] == NewCard(ids[28]) && Deal(ids).draw[23] == NewCard(ids[51])
  {
    var cs := CardsOf(ids);
    assert Deal(ids).table[0] == DealStack(cs, 0);
    assert Deal(ids).table[6] == DealStack(cs, 6);
  }

  lemma FixtureCards()
    ensures NewCard(0) == Card(0, 1) && NewCard(27) == Card(2, 2)
    ensures NewCard(28) == Card(2, 3) && NewCard(51) == Card(3, 13)
  {
  }

  /** The deal of the unshuffled ids 0, 1, ..., 51. */
  lemma DealOfIdentity(ids: seq<int>)
    requires |ids| == 52 && forall i :: 0 <= i < 52 ==> ids[i] == i
    ensures AllI8(ids)
    ensures Deal(ids).table[0] == TableStack([], [Card(0, 1)])
    ensures Deal(ids).table[6].upturned == [Card(2, 2)]
    ensures Deal(ids).draw[0] == Card(2, 3) && Deal(ids).draw[23] == Card(3, 13)
  {
    FixtureCards();
    DealCorners(ids);
  }
}
