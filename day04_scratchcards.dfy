/** Day 4: scratchcards. A card lists winning numbers and the numbers you have; its
    matches are the numbers in both lists (each counted once, since both lists become
    sets). Part 1 scores a card with k >= 1 matches 2^(k-1) points. In part 2 a card with k
    matches wins one copy of each of the next k cards, once per copy of itself; the answer is
    the number of cards held at the end. Lines are taken already split into the two lists. */
module Day04Scratchcards {

  datatype Card = Card(winning: seq<int>, yours: seq<int>)

  function ToSet(s: seq<int>): set<int>
  {
    set x | x in s
  }

  /** The size of the intersection of the two lists taken as sets. */
  function Matches(c: Card): (k: nat)
    ensures k <= |ToSet(c.winning)| && k <= |ToSet(c.yours)|
  {
    var w, y := ToSet(c.winning), ToSet(c.yours);
    SubsetCard(w * y, w);
    SubsetCard(w * y, y);
    |w * y|
  }

  lemma SubsetCard(a: set<int>, b: set<int>)
    requires a <= b
    ensures |a| <= |b|
  {
    assert b == a + (b - a);
  }

  function Pow2(k: nat): (r: nat)
    ensures r >= 1
  {
    if k == 0 then 1 else 2 * Pow2(k - 1)
  }

  /** The points of a card with `k` matches: nothing without a match, otherwise a point
      doubled for each match after the first. */
  function Score(k: nat): nat
  {
    if k == 0 then 0 else Pow2(k - 1)
  }

  /** One more match doubles a winning card's score. */
  lemma ScoreDoubles(k: nat)
    requires k >= 1
    ensures Score(k + 1) == 2 * Score(k)
  {
  }

  /** Listing a number twice does not add a match. */
  lemma DuplicatesCollapse(w: seq<int>, y: seq<int>, x: int)
    requires x in y
    ensures Matches(Card(w, y + [x])) == Matches(Card(w, y))
  {
    assert ToSet(y + [x]) == ToSet(y);
  }

  function TotalScore(cards: seq<Card>): int
  {
    if cards == [] then 0 else TotalScore(cards[..|cards| - 1]) + Score(Matches(cards[|cards| - 1]))
  }

  /** Part 1's `solve`. */
  method SolvePoints(cards: seq<Card>) returns (total: int)
    ensures total == TotalScore(cards)
  {
    total := 0;
    for i := 0 to |cards|
      invariant total == TotalScore(cards[..i])
    {
      assert cards[..i + 1][..i] == cards[..i];
      var k := Matches(cards[i]);
      if k == 0 {
        continue;
      }
      total := total + Pow2(k - 1);
    }
    assert cards[..|cards|] == cards;
  }

  /** The copies vector after card `i` has handed out its winnings: each of the cards
      `i+1 .. min(i+k, n-1)` gains as many copies as card `i` has. */
  function Win(copies: seq<int>, i: nat, k: nat): (r: seq<int>)
    requires i < |copies|
    ensures |r| == |copies|
  {
    seq(|copies|, j requires 0 <= j < |copies| => if i < j < i + 1 + k then copies[j] + copies[i] else copies[j])
  }

  /** The copies vector once the first `i` cards have been processed, `m` being the match
      counts of all cards. */
  function CopiesAfter(m: seq<nat>, i: nat): (c: seq<int>)
    requires i <= |m|
    ensures |c| == |m|
  {
    if i == 0 then seq(|m|, _ => 1) else Win(CopiesAfter(m, i - 1), i - 1, m[i - 1])
  }

  /** An independent account of part 2: card `j` is held once as an original, plus once per
      copy of every earlier card `i` whose matches reach it (j <= i + m[i]). */
  function Won(m: seq<nat>, j: nat): int
    requires j < |m|
    decreases j, 1, 0
  {
    1 + WonFrom(m, j, j)
  }

  /** The copies of card `j` won from the cards before `i`. */
  function WonFrom(m: seq<nat>, j: nat, i: nat): int
    requires i <= j < |m|
    decreases j, 0, i
  {
    if i == 0 then 0
    else WonFrom(m, j, i - 1) + (if j <= i - 1 + m[i - 1] then Won(m, i - 1) else 0)
  }

  /** The state of the loop: the cards already processed hold their final count, the others
      their original plus what the processed cards handed out. */
  lemma {:induction false} CopiesAfterWon(m: seq<nat>, i: nat)
    requires i <= |m|
    ensures forall j :: 0 <= j < i ==> CopiesAfter(m, i)[j] == Won(m, j)
    ensures forall j :: i <= j < |m| ==> CopiesAfter(m, i)[j] == 1 + WonFrom(m, j, i)
  {
    if i > 0 {
      CopiesAfterWon(m, i - 1);
    }
  }

  /** The loop of part 2 computes the independent account. */
  lemma CopiesAreWon(m: seq<nat>, j: nat)
    requires j < |m|
    ensures CopiesAfter(m, |m|)[j] == Won(m, j)
  {
    CopiesAfterWon(m, |m|);
  }

  /** Processing card `i` leaves it and every earlier card alone, so a card's count is final
      when its turn comes. */
  lemma {:induction false} EarlierCardsFinal(m: seq<nat>, i: nat, i': nat, j: nat)
    requires j <= i <= i' <= |m| && j < |m|
    ensures CopiesAfter(m, i')[j] == CopiesAfter(m, i)[j]
    decreases i' - i
  {
    if i < i' {
      EarlierCardsFinal(m, i, i' - 1, j);
    }
  }

  lemma {:induction false} WonAtLeastOne(m: seq<nat>, j: nat)
    requires j < |m|
    ensures Won(m, j) >= 1
    decreases j, 1
  {
    if j > 0 {
      WonFromPositive(m, j, j);
    }
  }

  lemma {:induction false} WonFromPositive(m: seq<nat>, j: nat, i: nat)
    requires i <= j < |m|
    ensures WonFrom(m, j, i) >= 0
    decreases j, 0, i
  {
    if i > 0 {
      WonFromPositive(m, j, i - 1);
      WonAtLeastOne(m, i - 1);
    }
  }

  function Sum(s: seq<int>): int
  {
    if s == [] then 0 else Sum(s[..|s| - 1]) + s[|s| - 1]
  }

  lemma {:induction false} SumAtLeastLength(s: seq<int>)
    requires forall j :: 0 <= j < |s| ==> s[j] >= 1
    ensures Sum(s) >= |s|
  {
    if s != [] {
      SumAtLeastLength(s[..|s| - 1]);
    }
  }

  /** Every card is held at least once, so there are at least as many cards as lines. */
  lemma AtLeastOriginals(m: seq<nat>)
    ensures Sum(CopiesAfter(m, |m|)) >= |m|
  {
    var c := CopiesAfter(m, |m|);
    forall j | 0 <= j < |m| ensures c[j] >= 1 {
      CopiesAreWon(m, j);
      WonAtLeastOne(m, j);
    }
    SumAtLeastLength(c);
  }

  function MatchCounts(cards: seq<Card>): (m: seq<nat>)
    ensures |m| == |cards| && forall i :: 0 <= i < |cards| ==> m[i] == Matches(cards[i])
  {
    seq(|cards|, i requires 0 <= i < |cards| => Matches(cards[i]))
  }

  /** Part 2's `solve`: the copies vector is updated in place. */
  method SolveCopies(cards: seq<Card>) returns (total: int)
    ensures total == Sum(CopiesAfter(MatchCounts(cards), |cards|))
  {
    var n := |cards|;
    ghost var m := MatchCounts(cards);
    var copies := new int[n](_ => 1);
    assert copies[..] == CopiesAfter(m, 0);
    for i := 0 to n
      invariant copies[..] == CopiesAfter(m, i)
    {
      var k := Matches(cards[i]);
      HandOut(copies, i, k);
    }
    total := SumArray(copies);
  }

  /** The inner loop of part 2: card `i`'s copies are added to the cards it wins. */
  method HandOut(copies: array<int>, i: nat, k: nat)
    requires i < copies.Length
    modifies copies
    ensures copies[..] == Win(old(copies[..]), i, k)
  {
    var n := copies.Length;
    var hi := if i + 1 + k < n then i + 1 + k else n;
    for j := i + 1 to hi
      invariant copies[i] == old(copies[i])
      invariant forall j' :: 0 <= j' < n ==> copies[j'] == if i < j' < j then old(copies[j']) + old(copies[i]) else old(copies[j'])
    {
      copies[j] := copies[j] + copies[i];
    }
  }

  /** `copies.iter().sum()`. */
  method SumArray(a: array<int>) returns (s: int)
    ensures s == Sum(a[..])
  {
    s := 0;
    for i := 0 to a.Length
      invariant s == Sum(a[..i])
    {
      assert a[..i + 1][..i] == a[..i];
      s := s + a[i];
    }
    assert a[..a.Length] == a[..];
  }

  /** The six example cards have 4, 2, 2, 1, 0 and 0 matches. */
  const ExampleCards: seq<Card> := [
    Card([41, 48, 83, 86, 17], [83, 86, 6, 31, 17, 9, 48, 53]),
    Card([13, 32, 20, 16, 61], [61, 30, 68, 82, 17, 32, 24, 19]),
    Card([1, 21, 53, 59, 44], [69, 82, 63, 72, 16, 21, 14, 1]),
    Card([41, 92, 73, 84, 69], [59, 84, 76, 51, 58, 5, 54, 83]),
    Card([87, 83, 26, 28, 32], [88, 30, 70, 12, 93, 22, 82, 36]),
    Card([31, 18, 13, 56, 72], [74, 77, 10, 23, 35, 67, 36, 11])]

  lemma CardMatches(c: Card, common: set<int>)
    requires common <= ToSet(c.winning) && common <= ToSet(c.yours)
    requires forall x :: x in c.winning && x in c.yours ==> x in common
    ensures Matches(c) == |common|
  {
    var w, y := ToSet(c.winning), ToSet(c.yours);
    forall x | x in w * y ensures x in common {
      assert x in c.winning && x in c.yours;
    }
    assert w * y == common;
  }

  lemma ExampleMatches()
    ensures MatchCounts(ExampleCards) == [4, 2, 2, 1, 0, 0]
  {
    ExampleCard0();
    ExampleCard1();
    ExampleCard2();
    ExampleCard3();
    ExampleCard4();
    ExampleCard5();
    ExampleCounts(ExampleCards);
  }

  /** Six cards with these matches have the example's match counts. */
  lemma ExampleCounts(c: seq<Card>)
    requires |c| == 6
    requires Matches(c[0]) == 4 && Matches(c[1]) == 2 && Matches(c[2]) == 2
    requires Matches(c[3]) == 1 && Matches(c[4]) == 0 && Matches(c[5]) == 0
    ensures MatchCounts(c) == [4, 2, 2, 1, 0, 0]
  {
    var m := MatchCounts(c);
    assert m[0] == 4 && m[1] == 2 && m[2] == 2 && m[3] == 1 && m[4] == 0 && m[5] == 0;
  }

  lemma ExampleCard0() ensures Matches(ExampleCards[0]) == 4
  {
    var c := ExampleCards[0];
    CardMatches(c, {48, 83, 86, 17});
  }

  lemma ExampleCard1() ensures Matches(ExampleCards[1]) == 2
  {
    var c := ExampleCards[1];
    CardMatches(c, {32, 61});
  }

  lemma ExampleCard2() ensures Matches(ExampleCards[2]) == 2
  {
    var c := ExampleCards[2];
    CardMatches(c, {1, 21});
  }

  lemma ExampleCard3() ensures Matches(ExampleCards[3]) == 1
  {
    var c := ExampleCards[3];
    CardMatches(c, {84});
  }

  lemma ExampleCard4() ensures Matches(ExampleCards[4]) == 0
  {
    var c := ExampleCards[4];
    CardMatches(c, {});
  }

  lemma ExampleCard5() ensures Matches(ExampleCards[5]) == 0
  {
    var c := ExampleCards[5];
    CardMatches(c, {});
  }

  /** The part 1 example scores 8 + 2 + 2 + 1 = 13. */
  lemma PointsExample()
    ensures TotalScore(ExampleCards) == 13
  {
    ExampleMatches();
    var c := ExampleCards;
    var m := MatchCounts(c);
    assert m[0] == 4 && m[1] == 2 && m[2] == 2 && m[3] == 1 && m[4] == 0 && m[5] == 0;
    ExampleTotal(c);
  }

  /** Six cards with the example's match counts score 8 + 2 + 2 + 1 = 13 in all. */
  lemma ExampleTotal(c: seq<Card>)
    requires |c| == 6
    requires Matches(c[0]) == 4 && Matches(c[1]) == 2 && Matches(c[2]) == 2
    requires Matches(c[3]) == 1 && Matches(c[4]) == 0 && Matches(c[5]) == 0
    ensures TotalScore(c) == 13
  {
    assert TotalScore(c[..0]) == 0;
    ScoreStep(c, 0);
    ScoreStep(c, 1);
    ScoreStep(c, 2);
    ScoreStep(c, 3);
    ScoreStep(c, 4);
    ScoreStep(c, 5);
    assert c[..|c|] == c;
  }

  /** The total over one more card adds that card's score. */
  lemma ScoreStep(cards: seq<Card>, i: nat)
    requires i < |cards|
    ensures TotalScore(cards[..i + 1]) == TotalScore(cards[..i]) + Score(Matches(cards[i]))
  {
    assert cards[..i + 1][..i] == cards[..i];
  }

  lemma WinStep(m: seq<nat>, i: nat, before: seq<int>, after: seq<int>)
    requires i < |m| && CopiesAfter(m, i) == before && |after| == |m|
    requires forall j :: 0 <= j < |m| ==> after[j] == if i < j < i + 1 + m[i] then before[j] + before[i] else before[j]
    ensures CopiesAfter(m, i + 1) == after
  {
  }

  /** The part 2 example ends with 1, 2, 4, 8, 14 and 1 copies: 30 cards. */
  lemma CopiesExample()
    ensures Sum(CopiesAfter(MatchCounts(ExampleCards), |ExampleCards|)) == 30
  {
    ExampleMatches();
    ExampleCopies();
    ExampleSum();
  }

  lemma ExampleCopies()
    ensures CopiesAfter([4, 2, 2, 1, 0, 0], 6) == [1, 2, 4, 8, 14, 1]
  {
    var m: seq<nat> := [4, 2, 2, 1, 0, 0];
    assert CopiesAfter(m, 0) == [1, 1, 1, 1, 1, 1];
    WinStep(m, 0, [1, 1, 1, 1, 1, 1], [1, 2, 2, 2, 2, 1]);
    WinStep(m, 1, [1, 2, 2, 2, 2, 1], [1, 2, 4, 4, 2, 1]);
    WinStep(m, 2, [1, 2, 4, 4, 2, 1], [1, 2, 4, 8, 6, 1]);
    WinStep(m, 3, [1, 2, 4, 8, 6, 1], [1, 2, 4, 8, 14, 1]);
    WinStep(m, 4, [1, 2, 4, 8, 14, 1], [1, 2, 4, 8, 14, 1]);
    WinStep(m, 5, [1, 2, 4, 8, 14, 1], [1, 2, 4, 8, 14, 1]);
  }

  lemma ExampleSum()
    ensures Sum([1, 2, 4, 8, 14, 1]) == 30
  {
    var c := [1, 2, 4, 8, 14, 1];
    assert c[..5][..4] == c[..4] && c[..4][..3] == c[..3] && c[..3][..2] == c[..2] && c[..2][..1] == c[..1];
    assert c[..6][..5] == c[..5] && c[..1][..0] == [] && c[..6] == c;
    assert Sum(c[..1]) == 1;
    assert Sum(c[..2]) == 3;
    assert Sum(c[..3]) == 7;
    assert Sum(c[..4]) == 15;
    assert Sum(c[..5]) == 29;
  }
}
