/** Day 7: Camel Cards. A hand's type comes from the sorted multiplicities of its cards,
    looked up in a fixed table of the seven count patterns of a five-card hand; hands are
    ranked by type and then card by card, and the winnings are the sum of rank times bid.
    Part 1 ranks cards 2..9, T, J, Q, K, A; part 2 reads J as a joker, weakest of all, whose
    count joins the largest count of the other cards. A card outside the deck, or a count
    pattern outside the table, is where the source panics (`None` here). Both parts sort
    with Rust's stable sort, so hands with equal keys keep their input order. */
module Day07Camel {
  import opened Wrappers

  // ---------------------------------------------------------------- sorting the counts

  function Sum(s: seq<nat>): nat
  {
    if s == [] then 0 else Sum(s[..|s| - 1]) + s[|s| - 1]
  }

  predicate Ascending(s: seq<nat>)
  {
    forall i, j :: 0 <= i < j < |s| ==> s[i] <= s[j]
  }

  function InsertCount(x: nat, s: seq<nat>): seq<nat>
  {
    if s == [] || x <= s[0] then [x] + s else [s[0]] + InsertCount(x, s[1..])
  }

  /** `counts.sort()`. */
  function SortCounts(s: seq<nat>): seq<nat>
  {
    if s == [] then [] else InsertCount(s[|s| - 1], SortCounts(s[..|s| - 1]))
  }

  predicate AllAtLeast(s: seq<nat>, v: nat)
  {
    forall i :: 0 <= i < |s| ==> v <= s[i]
  }

  lemma {:induction false} InsertCountBag(x: nat, s: seq<nat>)
    ensures multiset(InsertCount(x, s)) == multiset(s) + multiset{x}
  {
    if s != [] && x > s[0] {
      InsertCountBag(x, s[1..]);
      assert s == [s[0]] + s[1..];
    }
  }

  lemma BagBound(t: seq<nat>, s: seq<nat>, x: nat, v: nat)
    requires multiset(t) == multiset(s) + multiset{x}
    requires AllAtLeast(s, v) && v <= x
    ensures AllAtLeast(t, v)
  {
    forall j | 0 <= j < |t|
      ensures v <= t[j]
    {
      assert t[j] in multiset(s) + multiset{x};
      if t[j] != x {
        assert t[j] in multiset(s);
        var k :| 0 <= k < |s| && s[k] == t[j];
      }
    }
  }

  lemma {:induction false} InsertCountAscending(x: nat, s: seq<nat>)
    requires Ascending(s)
    ensures Ascending(InsertCount(x, s))
  {
    if s == [] || x <= s[0] {
      assert AllAtLeast(s, x);
    } else {
      var tail := InsertCount(x, s[1..]);
      assert Ascending(s[1..]);
      InsertCountAscending(x, s[1..]);
      InsertCountBag(x, s[1..]);
      assert AllAtLeast(s[1..], s[0]);
      BagBound(tail, s[1..], x, s[0]);
      assert InsertCount(x, s) == [s[0]] + tail;
    }
  }

  /** The sorted counts are ascending and hold exactly the counts given. */
  lemma {:induction false} SortCountsSpec(s: seq<nat>)
    ensures Ascending(SortCounts(s)) && multiset(SortCounts(s)) == multiset(s)
  {
    if s != [] {
      SortCountsSpec(s[..|s| - 1]);
      InsertCountAscending(s[|s| - 1], SortCounts(s[..|s| - 1]));
      InsertCountBag(s[|s| - 1], SortCounts(s[..|s| - 1]));
      assert s == s[..|s| - 1] + [s[|s| - 1]];
    }
  }

  /** Two ascending sequences holding the same values are equal: once sorted, the order in
      which the counts were collected no longer matters. */
  lemma {:induction false} AscendingUnique(a: seq<nat>, b: seq<nat>)
    requires Ascending(a) && Ascending(b) && multiset(a) == multiset(b)
    ensures a == b
  {
    if a == [] {
      assert |multiset(b)| == 0;
    } else {
      SameLeast(a, b);
      assert Ascending(a[1..]) && Ascending(b[1..]);
      AscendingUnique(a[1..], b[1..]);
      assert a == [a[0]] + a[1..] && b == [b[0]] + b[1..];
    }
  }

  /** Two ascending sequences with the same values start with the same (least) value, and
      the rest hold the same values. */
  lemma SameLeast(a: seq<nat>, b: seq<nat>)
    requires Ascending(a) && Ascending(b) && multiset(a) == multiset(b) && a != []
    ensures b != [] && a[0] == b[0] && multiset(a[1..]) == multiset(b[1..])
  {
    assert a[0] in multiset(a);
    assert b != [];
    LeastIn(a, b);
    LeastIn(b, a);
    DropHead(a);
    DropHead(b);
  }

  lemma LeastIn(a: seq<nat>, b: seq<nat>)
    requires Ascending(a) && a != [] && b != [] && multiset(a) == multiset(b)
    ensures a[0] <= b[0]
  {
    assert b[0] in multiset(a);
    var j :| 0 <= j < |a| && a[j] == b[0];
  }

  lemma DropHead<T>(a: seq<T>)
    requires a != []
    ensures multiset(a[1..]) == multiset(a) - multiset{a[0]}
  {
    assert a == [a[0]] + a[1..];
  }

  lemma {:induction false} SumSplit(a: seq<nat>, b: seq<nat>)
    ensures Sum(a + b) == Sum(a) + Sum(b)
  {
    if b != [] {
      assert (a + b)[..|a + b| - 1] == a + b[..|b| - 1];
      SumSplit(a, b[..|b| - 1]);
    } else {
      assert a + b == a;
    }
  }

  lemma {:induction false} SumInsert(x: nat, s: seq<nat>)
    requires Ascending(s)
    ensures Sum(InsertCount(x, s)) == x + Sum(s)
  {
    if s == [] || x <= s[0] {
      SumSplit([x], s);
    } else {
      SumInsert(x, s[1..]);
      SumSplit([s[0]], InsertCount(x, s[1..]));
      SumSplit([s[0]], s[1..]);
      assert s == [s[0]] + s[1..];
    }
  }

  lemma {:induction false} SumSorted(s: seq<nat>)
    ensures Sum(SortCounts(s)) == Sum(s)
  {
    if s != [] {
      SumSorted(s[..|s| - 1]);
      SortCountsSpec(s[..|s| - 1]);
      SumInsert(s[|s| - 1], SortCounts(s[..|s| - 1]));
    }
  }

  // ---------------------------------------------------------------- counting cards

  function Without<T(==,!new)>(s: seq<T>, x: T): (r: seq<T>)
    ensures |r| <= |s| && x !in r
    ensures forall y :: y != x ==> multiset(r)[y] == multiset(s)[y]
  {
    if s == [] then []
    else
      assert s == [s[0]] + s[1..];
      (if s[0] == x then [] else [s[0]]) + Without(s[1..], x)
  }

  /** The values of the source's card counter: the multiplicity of each distinct card, in
      the order the cards first appear (the HashMap yields some order; only the sorted
      counts are used). */
  function Counts<T(==,!new)>(s: seq<T>): (r: seq<nat>)
    ensures AllAtLeast(r, 1)
    ensures Sum(r) == |s|
    decreases |s|
  {
    if s == [] then []
    else
      var rest := Without(s[1..], s[0]);
      var c := |s| - |rest|;
      assert multiset(s)[s[0]] >= 1;
      SumSplit([c], Counts(rest));
      [c] + Counts(rest)
  }

  /** The counted multiplicity of the first card is its number of occurrences. */
  lemma FirstCount<T(!new)>(s: seq<T>)
    requires s != []
    ensures Counts(s)[0] == multiset(s)[s[0]]
  {
    var rest := Without(s[1..], s[0]);
    assert s == [s[0]] + s[1..];
    WithoutSize(s[1..], s[0]);
  }

  lemma {:induction false} WithoutSize<T(!new)>(s: seq<T>, x: T)
    ensures |Without(s, x)| == |s| - multiset(s)[x]
  {
    if s != [] {
      assert s == [s[0]] + s[1..];
      WithoutSize(s[1..], x);
    }
  }

  /** The counter loop of `compute_cards_type` / `compute_tier`: each distinct card maps to
      its number of occurrences. */
  method Tally<T(==)>(cards: seq<T>) returns (counter: map<T, nat>)
    ensures forall c :: c in counter <==> c in cards
    ensures forall c :: c in counter ==> counter[c] == multiset(cards)[c]
  {
    counter := map[];
    var i := 0;
    while i < |cards|
      invariant 0 <= i <= |cards|
      invariant forall c :: c in counter <==> c in cards[..i]
      invariant forall c :: c in counter ==> counter[c] == multiset(cards[..i])[c]
    {
      var card := cards[i];
      var count := if card in counter then counter[card] else 0;
      assert cards[..i + 1] == cards[..i] + [card];
      counter := counter[card := count + 1];
      i := i + 1;
    }
    assert cards[..i] == cards;
  }

  // ---------------------------------------------------------------- the type table

  /** The table of `compute_cards_type` (and of `compute_tier`, whose Tier values are the
      same numbers): 6 five of a kind ... 0 high card; any other pattern is unreachable. */
  function Classify(counts: seq<nat>): Option<nat>
  {
    if counts == [5] then Some(6)
    else if counts == [1, 4] then Some(5)
    else if counts == [2, 3] then Some(4)
    else if counts == [1, 1, 3] then Some(3)
    else if counts == [1, 2, 2] then Some(2)
    else if counts == [1, 1, 1, 2] then Some(1)
    else if counts == [1, 1, 1, 1, 1] then Some(0)
    else None
  }

  /** The table is total over five cards: every ascending list of positive counts summing
      to 5 is one of the seven patterns. */
  lemma FiveCardPatterns(c: seq<nat>)
    requires Ascending(c) && Sum(c) == 5 && AllAtLeast(c, 1)
    ensures Classify(c).Some?
  {
    SumAtLeastLength(c);
    SumSmall(c);
    var p: seq<nat>;
    if |c| == 1 {
      p := [5];
    } else if |c| == 2 {
      assert c[0] <= c[1];
      p := if c[0] == 1 then [1, 4] else [2, 3];
    } else if |c| == 3 {
      assert c[0] <= c[1] <= c[2];
      p := if c[1] == 1 then [1, 1, 3] else [1, 2, 2];
    } else if |c| == 4 {
      assert c[0] <= c[1] <= c[2] <= c[3];
      p := [1, 1, 1, 2];
    } else {
      p := [1, 1, 1, 1, 1];
    }
    assert |c| == |p| && forall i :: 0 <= i < |c| ==> c[i] == p[i];
    assert c == p;
  }

  lemma SumSmall(c: seq<nat>)
    requires 1 <= |c| <= 5
    ensures Sum(c) == c[0] + (if |c| > 1 then c[1] else 0) + (if |c| > 2 then c[2] else 0)
      + (if |c| > 3 then c[3] else 0) + (if |c| > 4 then c[4] else 0)
  {
    var p := c;
    if |c| > 4 { assert Sum(c) == Sum(c[..4]) + c[4]; p := c[..4]; }
    if |p| > 3 { assert Sum(p) == Sum(p[..3]) + p[3]; p := p[..3]; }
    if |p| > 2 { assert Sum(p) == Sum(p[..2]) + p[2]; p := p[..2]; }
    if |p| > 1 { assert Sum(p) == Sum(p[..1]) + p[1]; p := p[..1]; }
    assert Sum(p) == Sum(p[..0]) + p[0] && p[..0] == [];
  }

  lemma {:induction false} SumAtLeastLength(c: seq<nat>)
    requires AllAtLeast(c, 1)
    ensures Sum(c) >= |c|
  {
    if c != [] {
      SumAtLeastLength(c[..|c| - 1]);
    }
  }

  /** Part 1's `compute_cards_type`. */
  function CardsType(cards: string): Option<nat>
  {
    Classify(SortCounts(Counts(cards)))
  }

  /** Sorting keeps the counts positive and their total. */
  lemma SortedCountsFacts(c: seq<nat>)
    requires AllAtLeast(c, 1)
    ensures Ascending(SortCounts(c)) && AllAtLeast(SortCounts(c), 1) && Sum(SortCounts(c)) == Sum(c)
  {
    SortCountsSpec(c);
    SumSorted(c);
    var r := SortCounts(c);
    forall i | 0 <= i < |r|
      ensures 1 <= r[i]
    {
      assert r[i] in multiset(c);
    }
  }

  /** Every five-card hand has a type; the counts it is read from add up to the hand size. */
  lemma FiveCardsTyped(cards: string)
    requires |cards| == 5
    ensures CardsType(cards).Some?
    ensures Sum(SortCounts(Counts(cards))) == |cards|
  {
    SortedCountsFacts(Counts(cards));
    FiveCardPatterns(SortCounts(Counts(cards)));
  }

  // ---------------------------------------------------------------- part 1 card powers

  const Deck1: string := "23456789TJQKA"

  /** `compute_cards_power`'s table: 2 is 0, ..., A is 12; any other card is not in the map
      and the lookup panics. */
  function Power(c: char): (p: Option<nat>)
    ensures p.Some? <==> c in Deck1
    ensures p.Some? ==> p.value < 13 && Deck1[p.value] == c
  {
    match c
    case '2' => Some(0) case '3' => Some(1) case '4' => Some(2) case '5' => Some(3)
    case '6' => Some(4) case '7' => Some(5) case '8' => Some(6) case '9' => Some(7)
    case 'T' => Some(8) case 'J' => Some(9) case 'Q' => Some(10) case 'K' => Some(11)
    case 'A' => Some(12)
    case _ => None
  }

  function Powers(cards: string): (ps: Option<seq<int>>)
    ensures ps.Some? <==> forall i :: 0 <= i < |cards| ==> Power(cards[i]).Some?
    ensures ps.Some? ==> |ps.value| == |cards| && forall i :: 0 <= i < |cards| ==> ps.value[i] == Power(cards[i]).value
  {
    if cards == [] then Some([])
    else
      match (Power(cards[0]), Powers(cards[1..]))
      case (Some(p), Some(rest)) => Some([p] + rest)
      case _ => None
  }

  // ---------------------------------------------------------------- part 2 faces and tiers

  /** `Face`, declared from weakest to strongest: the joker below 2. */
  datatype Face = Jo | N2 | N3 | N4 | N5 | N6 | N7 | N8 | N9 | T | Q | K | A

  function FaceRank(f: Face): nat
  {
    match f
    case Jo => 0 case N2 => 1 case N3 => 2 case N4 => 3 case N5 => 4 case N6 => 5
    case N7 => 6 case N8 => 7 case N9 => 8 case T => 9 case Q => 10 case K => 11 case A => 12
  }

  const Deck2: string := "J23456789TQKA"

  /** `compute_faces` for one card; any other character is unreachable. */
  function ToFace(c: char): (f: Option<Face>)
    ensures f.Some? <==> c in Deck2
    ensures f.Some? ==> Deck2[FaceRank(f.value)] == c
  {
    match c
    case 'J' => Some(Jo) case '2' => Some(N2) case '3' => Some(N3) case '4' => Some(N4)
    case '5' => Some(N5) case '6' => Some(N6) case '7' => Some(N7) case '8' => Some(N8)
    case '9' => Some(N9) case 'T' => Some(T) case 'Q' => Some(Q) case 'K' => Some(K)
    case 'A' => Some(A)
    case _ => None
  }

  function Faces(cards: string): (fs: Option<seq<Face>>)
    ensures fs.Some? <==> forall i :: 0 <= i < |cards| ==> ToFace(cards[i]).Some?
    ensures fs.Some? ==> |fs.value| == |cards| && forall i :: 0 <= i < |cards| ==> fs.value[i] == ToFace(cards[i]).value
  {
    if cards == [] then Some([])
    else
      match (ToFace(cards[0]), Faces(cards[1..]))
      case (Some(f), Some(rest)) => Some([f] + rest)
      case _ => None
  }

  /** `compute_tier`'s counts: the jokers' count is taken out, the others are sorted, and
      the jokers join the largest count (or form the only count when every card is a
      joker). */
  function JokerCounts(faces: seq<Face>): (c: seq<nat>)
    ensures Sum(c) == |faces|
  {
    var jokers := multiset(faces)[Jo];
    var others := SortCounts(Counts(Without(faces, Jo)));
    WithoutSize(faces, Jo);
    SumSorted(Counts(Without(faces, Jo)));
    if others == [] then [jokers]
    else
      assert others == others[..|others| - 1] + [others[|others| - 1]];
      SumSplit(others[..|others| - 1], [others[|others| - 1]]);
      SumSplit(others[..|others| - 1], [others[|others| - 1] + jokers]);
      others[..|others| - 1] + [others[|others| - 1] + jokers]
  }

  /** Raising the last (largest) count keeps counts ascending and positive. */
  lemma BumpLast(c: seq<nat>, k: nat)
    requires c != [] && Ascending(c) && AllAtLeast(c, 1)
    ensures Ascending(c[..|c| - 1] + [c[|c| - 1] + k]) && AllAtLeast(c[..|c| - 1] + [c[|c| - 1] + k], 1)
  {
    var d := c[..|c| - 1] + [c[|c| - 1] + k];
    assert forall i :: 0 <= i < |c| - 1 ==> d[i] == c[i];
  }

  /** The joker counts of five cards are still an ascending list of positive counts, so the
      table is total over five-card hands; five jokers read as five of a kind. */
  lemma JokerCountsTyped(faces: seq<Face>)
    requires |faces| == 5
    ensures Classify(JokerCounts(faces)).Some?
    ensures (forall i :: 0 <= i < 5 ==> faces[i] == Jo) ==> JokerCounts(faces) == [5]
  {
    JokerCountsShape(faces);
    FiveCardPatterns(JokerCounts(faces));
    if forall i :: 0 <= i < 5 ==> faces[i] == Jo {
      JokersOnly(faces);
      WithoutSize(faces, Jo);
    }
  }

  /** The joker counts of five cards: ascending, positive, adding up to five. */
  lemma JokerCountsShape(faces: seq<Face>)
    requires |faces| == 5
    ensures Ascending(JokerCounts(faces)) && AllAtLeast(JokerCounts(faces), 1) && Sum(JokerCounts(faces)) == 5
  {
    var rest := Without(faces, Jo);
    SortedCountsFacts(Counts(rest));
    var others := SortCounts(Counts(rest));
    if others == [] {
      WithoutSize(faces, Jo);
    } else {
      BumpLast(others, multiset(faces)[Jo]);
    }
  }

  lemma {:induction false} JokersOnly(faces: seq<Face>)
    requires forall i :: 0 <= i < |faces| ==> faces[i] == Jo
    ensures Without(faces, Jo) == []
  {
    if faces != [] {
      JokersOnly(faces[1..]);
    }
  }

  /** Part 2's `compute_tier`. */
  function Tier(faces: seq<Face>): Option<nat>
  {
    Classify(JokerCounts(faces))
  }

  // ---------------------------------------------------------------- ranking

  /** Lexicographic order on keys, as Rust compares tuples and vectors. */
  predicate LexLe(a: seq<int>, b: seq<int>)
  {
    if a == [] then true
    else if b == [] then false
    else if a[0] != b[0] then a[0] < b[0]
    else LexLe(a[1..], b[1..])
  }

  lemma {:induction false} LexTotal(a: seq<int>, b: seq<int>)
    ensures LexLe(a, b) || LexLe(b, a)
  {
    if a != [] && b != [] && a[0] == b[0] {
      LexTotal(a[1..], b[1..]);
    }
  }

  lemma {:induction false} LexTrans(a: seq<int>, b: seq<int>, c: seq<int>)
    requires LexLe(a, b) && LexLe(b, c)
    ensures LexLe(a, c)
  {
    if a != [] && b != [] && c != [] && a[0] == b[0] && b[0] == c[0] {
      LexTrans(a[1..], b[1..], c[1..]);
    }
  }

  /** A hand ready for ranking: its sort key (type, then card values) and its bid. */
  datatype Entry = Entry(key: seq<int>, bid: int)

  predicate Ranked(s: seq<Entry>)
  {
    forall i, j :: 0 <= i < j < |s| ==> LexLe(s[i].key, s[j].key)
  }

  /** Inserts `x` after every entry whose key is not above its own, which keeps equal keys
      in arrival order. */
  function Insert(x: Entry, s: seq<Entry>): (r: seq<Entry>)
    requires Ranked(s)
    ensures Ranked(r) && multiset(r) == multiset(s) + multiset{x}
  {
    if s == [] then [x]
    else if !LexLe(s[0].key, x.key) then
      BelowAll(x, s);
      PrependRanked(x, s);
      [x] + s
    else
      var tail := Insert(x, s[1..]);
      assert s == [s[0]] + s[1..];
      HeadBelowTail(x, s, tail);
      PrependRanked(s[0], tail);
      [s[0]] + tail
  }

  /** An entry whose key is below a ranked list's first key is below all of it. */
  lemma BelowAll(x: Entry, s: seq<Entry>)
    requires Ranked(s) && s != [] && !LexLe(s[0].key, x.key)
    ensures forall j :: 0 <= j < |s| ==> LexLe(x.key, s[j].key)
  {
    LexTotal(s[0].key, x.key);
    forall j | 0 < j < |s|
      ensures LexLe(x.key, s[j].key)
    {
      LexTrans(x.key, s[0].key, s[j].key);
    }
  }

  /** The first entry of a ranked list stays below the rest with `x`, which is above it. */
  lemma HeadBelowTail(x: Entry, s: seq<Entry>, tail: seq<Entry>)
    requires Ranked(s) && s != [] && LexLe(s[0].key, x.key)
    requires multiset(tail) == multiset(s[1..]) + multiset{x}
    ensures forall j :: 0 <= j < |tail| ==> LexLe(s[0].key, tail[j].key)
  {
    forall j | 0 <= j < |tail|
      ensures LexLe(s[0].key, tail[j].key)
    {
      assert tail[j] in multiset(s[1..]) + multiset{x};
      if tail[j] != x {
        assert tail[j] in s[1..];
        var k :| 1 <= k < |s| && s[k] == tail[j];
      }
    }
  }

  /** Putting an entry below all of a ranked list in front keeps it ranked. */
  lemma PrependRanked(x: Entry, s: seq<Entry>)
    requires Ranked(s) && forall j :: 0 <= j < |s| ==> LexLe(x.key, s[j].key)
    ensures Ranked([x] + s)
  {
    var r := [x] + s;
    forall i, j | 0 <= i < j < |r|
      ensures LexLe(r[i].key, r[j].key)
    {
      if i > 0 {
        assert r[i] == s[i - 1] && r[j] == s[j - 1];
      }
    }
  }

  /** The stable sort of `sort_by_key` / `sort_by`: ascending by key, a permutation of the
      hands. */
  function Rank(s: seq<Entry>): (r: seq<Entry>)
    ensures Ranked(r) && multiset(r) == multiset(s)
  {
    if s == [] then []
    else
      assert s == s[..|s| - 1] + [s[|s| - 1]];
      Insert(s[|s| - 1], Rank(s[..|s| - 1]))
  }

  /** The entries of s whose key is k, in their order in s. */
  function WithKey(s: seq<Entry>, k: seq<int>): seq<Entry>
  {
    if s == [] then [] else (if s[0].key == k then [s[0]] else []) + WithKey(s[1..], k)
  }

  lemma {:induction false} WithKeyAppend(a: seq<Entry>, b: seq<Entry>, k: seq<int>)
    ensures WithKey(a + b, k) == WithKey(a, k) + WithKey(b, k)
  {
    if a != [] {
      WithKeyAppend(a[1..], b, k);
      assert (a + b)[1..] == a[1..] + b;
    } else {
      assert a + b == b;
    }
  }

  lemma {:induction false} NoKey(s: seq<Entry>, k: seq<int>)
    requires forall j :: 0 <= j < |s| ==> s[j].key != k
    ensures WithKey(s, k) == []
  {
    if s != [] {
      NoKey(s[1..], k);
    }
  }

  /** Inserting x puts it after every entry with its key, and keeps their order. */
  lemma {:induction false} InsertStable(x: Entry, s: seq<Entry>, k: seq<int>)
    requires Ranked(s)
    ensures WithKey(Insert(x, s), k) == WithKey(s, k) + (if x.key == k then [x] else [])
  {
    var own := if x.key == k then [x] else [];
    if s == [] {
      assert [x][1..] == [];
    } else if !LexLe(s[0].key, x.key) {
      assert Insert(x, s) == [x] + s;
      assert ([x] + s)[1..] == s;
      assert WithKey([x] + s, k) == own + WithKey(s, k);
      if x.key == k {
        forall j | 0 <= j < |s| ensures s[j].key != k {
          LexRefl(x.key);
          if j > 0 {
            assert LexLe(s[0].key, s[j].key);
          }
        }
        NoKey(s, k);
      }
    } else {
      var tail := Insert(x, s[1..]);
      assert Insert(x, s) == [s[0]] + tail;
      InsertStable(x, s[1..], k);
      assert ([s[0]] + tail)[1..] == tail;
      var head := if s[0].key == k then [s[0]] else [];
      assert WithKey([s[0]] + tail, k) == head + WithKey(tail, k);
      assert WithKey(s, k) == head + WithKey(s[1..], k);
    }
  }

  /** The sort is stable: the hands that share a key keep their input order. */
  lemma {:induction false} RankStable(s: seq<Entry>, k: seq<int>)
    ensures WithKey(Rank(s), k) == WithKey(s, k)
  {
    if s != [] {
      var init, last := s[..|s| - 1], s[|s| - 1];
      assert s == init + [last];
      var tail := if last.key == k then [last] else [];
      assert Rank(s) == Insert(last, Rank(init));
      RankStable(init, k);
      InsertStable(last, Rank(init), k);
      assert WithKey(Rank(s), k) == WithKey(init, k) + tail;
      WithKeyAppend(init, [last], k);
      assert [last][1..] == [];
      assert WithKey([last], k) == tail;
    }
  }

  /** Σ (rank from 1) · bid. */
  function Winnings(s: seq<Entry>): int
  {
    if s == [] then 0 else Winnings(s[..|s| - 1]) + |s| * s[|s| - 1].bid
  }

  // ---------------------------------------------------------------- the two solvers

  datatype Hand = Hand(cards: string, bid: int)

  /** Part 1's key: (type, powers). */
  function Key1(h: Hand): Option<seq<int>>
  {
    match (CardsType(h.cards), Powers(h.cards))
    case (Some(t), Some(ps)) => Some([t] + ps)
    case _ => None
  }

  /** Part 2's key: (tier, face ranks). */
  function Key2(h: Hand): Option<seq<int>>
  {
    match Faces(h.cards)
    case None => None
    case Some(fs) =>
      match Tier(fs)
      case None => None
      case Some(t) => Some([t] + seq(|fs|, i requires 0 <= i < |fs| => FaceRank(fs[i])))
  }

  /** The key of one hand under either part's rules. */
  function KeyOf(h: Hand, part2: bool): Option<seq<int>>
  {
    if part2 then Key2(h) else Key1(h)
  }

  predicate AllKeyed(hands: seq<Hand>, part2: bool)
  {
    forall i :: 0 <= i < |hands| ==> KeyOf(hands[i], part2).Some?
  }

  /** The (key, bid) entries of all hands, in input order; `None` when some hand has no key. */
  function Entries(hands: seq<Hand>, part2: bool): Option<seq<Entry>>
  {
    if AllKeyed(hands, part2) then
      Some(seq(|hands|, i requires 0 <= i < |hands| && AllKeyed(hands, part2) =>
        Entry(KeyOf(hands[i], part2).value, hands[i].bid)))
    else None
  }

  /** `solve` of either part: `None` where a card or a count pattern is unreachable. */
  function Solve(hands: seq<Hand>, part2: bool): Option<int>
  {
    match Entries(hands, part2)
    case None => None
    case Some(es) => Some(Winnings(Rank(es)))
  }

  /** Every five-card hand over the deck gets a part-1 key. */
  lemma Key1Defined(h: Hand)
    requires |h.cards| == 5 && forall i :: 0 <= i < 5 ==> h.cards[i] in Deck1
    ensures Key1(h).Some?
  {
    FiveCardsTyped(h.cards);
  }

  /** Every five-card hand over the deck gets a part-2 key. */
  lemma Key2Defined(h: Hand)
    requires |h.cards| == 5 && forall i :: 0 <= i < 5 ==> h.cards[i] in Deck2
    ensures Key2(h).Some?
  {
    JokerCountsTyped(Faces(h.cards).value);
  }

  /** Five-card hands over the deck always produce a ranked answer. */
  lemma SolveDefined(hands: seq<Hand>, part2: bool)
    requires forall i :: 0 <= i < |hands| ==> |hands[i].cards| == 5
    requires forall i, j :: 0 <= i < |hands| && 0 <= j < 5 ==> hands[i].cards[j] in (if part2 then Deck2 else Deck1)
    ensures Solve(hands, part2).Some?
  {
    forall i | 0 <= i < |hands| ensures KeyOf(hands[i], part2).Some? {
      if part2 { Key2Defined(hands[i]); } else { Key1Defined(hands[i]); }
    }
  }

  // ---------------------------------------------------------------- order independence

  lemma {:induction false} LexRefl(a: seq<int>)
    ensures LexLe(a, a)
  {
    if a != [] {
      LexRefl(a[1..]);
    }
  }

  lemma {:induction false} LexAntisym(a: seq<int>, b: seq<int>)
    requires LexLe(a, b) && LexLe(b, a)
    ensures a == b
  {
    if a != [] && b != [] {
      LexAntisym(a[1..], b[1..]);
      assert a == [a[0]] + a[1..] && b == [b[0]] + b[1..];
    }
  }

  predicate DistinctKeys(s: seq<Entry>)
  {
    forall i, j :: 0 <= i < j < |s| ==> s[i].key != s[j].key
  }

  /** A ranking of hands whose keys all differ is unique. */
  lemma {:induction false} RankedUnique(a: seq<Entry>, b: seq<Entry>)
    requires Ranked(a) && Ranked(b) && multiset(a) == multiset(b) && DistinctKeys(a)
    ensures a == b
  {
    if a != [] {
      SameHead(a, b);
      DropHead(a);
      DropHead(b);
      var ta, tb := a[1..], b[1..];
      assert Ranked(ta) && Ranked(tb) by {
        assert forall i :: 0 <= i < |ta| ==> ta[i] == a[i + 1];
        assert forall i :: 0 <= i < |tb| ==> tb[i] == b[i + 1];
      }
      assert DistinctKeys(ta) by {
        assert forall i :: 0 <= i < |ta| ==> ta[i] == a[i + 1];
      }
      RankedUnique(ta, tb);
      assert a == [a[0]] + ta && b == [b[0]] + tb;
    }
  }

  /** Two such rankings start with the same entry. */
  lemma SameHead(a: seq<Entry>, b: seq<Entry>)
    requires Ranked(a) && Ranked(b) && multiset(a) == multiset(b) && DistinctKeys(a) && a != []
    ensures b != [] && a[0] == b[0]
  {
    assert a[0] in multiset(b);
    assert b != [] && b[0] in multiset(a);
    var i :| 0 <= i < |b| && b[i] == a[0];
    var j :| 0 <= j < |a| && a[j] == b[0];
    assert LexLe(b[0].key, a[0].key) by { if i > 0 { assert LexLe(b[0].key, b[i].key); } else { LexRefl(a[0].key); } }
    assert LexLe(a[0].key, b[0].key) by { if j > 0 { assert LexLe(a[0].key, a[j].key); } else { LexRefl(a[0].key); } }
    LexAntisym(a[0].key, b[0].key);
    assert j == 0;
  }

  /** With distinct keys, the ranking (and so the winnings) does not depend on the order
      the hands were read in. */
  lemma RankOrderFree(a: seq<Entry>, b: seq<Entry>)
    requires multiset(a) == multiset(b) && DistinctKeys(a)
    ensures Rank(a) == Rank(b)
  {
    var ra := Rank(a);
    forall i, j | 0 <= i < j < |ra| ensures ra[i].key != ra[j].key {
      KeysStayDistinct(a, ra, i, j);
    }
    RankedUnique(ra, Rank(b));
  }

  lemma KeysStayDistinct(a: seq<Entry>, r: seq<Entry>, i: int, j: int)
    requires multiset(r) == multiset(a) && DistinctKeys(a) && 0 <= i < j < |r|
    ensures r[i].key != r[j].key
  {
    assert r[i] in multiset(a) && r[j] in multiset(a);
    var p :| 0 <= p < |a| && a[p] == r[i];
    var q :| 0 <= q < |a| && a[q] == r[j];
    if r[i].key == r[j].key {
      assert p == q;
      // equal entries at two positions of r need multiplicity 2 in a, which a's distinct keys forbid
      assert multiset(r)[r[i]] >= 2 by {
        assert r == r[..i] + [r[i]] + r[i + 1..j] + [r[j]] + r[j + 1..];
      }
      OnlyOnce(a, p);
      assert false;
    }
  }

  lemma OnlyOnce(a: seq<Entry>, p: int)
    requires DistinctKeys(a) && 0 <= p < |a|
    ensures multiset(a)[a[p]] == 1
  {
    assert a == a[..p] + [a[p]] + a[p + 1..];
    assert a[p] !in a[..p] by { forall k | 0 <= k < p ensures a[..p][k].key != a[p].key { } }
    var tail := a[p + 1..];
    assert a[p] !in tail by { forall k | 0 <= k < |tail| ensures tail[k].key != a[p].key { assert tail[k] == a[p + 1 + k]; } }
  }
}
