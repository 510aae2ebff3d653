/** Day 2: games of cubes drawn from a bag. Part 1 adds the ids of the games that are
    possible with a given number of red, green and blue cubes; part 2 adds, per game, the
    product of the least numbers of cubes of each colour that make it possible. Lines are
    taken already split: a game is its id and its ';'-separated groups of "num colour"
    draws. */
module Day02Cubes {

  datatype Draw = Draw(num: int, colour: string)

  datatype Game = Game(id: int, groups: seq<seq<Draw>>)

  /** The `match color` of part 1: a known colour within its limit; any other colour fails. */
  predicate Allowed(d: Draw, red: int, green: int, blue: int)
  {
    if d.colour == "red" then d.num <= red
    else if d.colour == "green" then d.num <= green
    else if d.colour == "blue" then d.num <= blue
    else false
  }

  /** Every draw in every group is allowed. */
  predicate Possible(g: Game, red: int, green: int, blue: int)
  {
    forall i, j :: 0 <= i < |g.groups| && 0 <= j < |g.groups[i]| ==> Allowed(g.groups[i][j], red, green, blue)
  }

  /** The sum of the ids of the possible games. */
  function IdSum(games: seq<Game>, red: int, green: int, blue: int): int
  {
    if games == [] then 0
    else
      var g := games[|games| - 1];
      IdSum(games[..|games| - 1], red, green, blue) + (if Possible(g, red, green, blue) then g.id else 0)
  }

  /** A draw of a colour other than red, green or blue makes the game impossible. */
  lemma UnknownColourImpossible(g: Game, i: nat, j: nat, red: int, green: int, blue: int)
    requires i < |g.groups| && j < |g.groups[i]|
    requires g.groups[i][j].colour !in {"red", "green", "blue"}
    ensures !Possible(g, red, green, blue)
  {
    assert !Allowed(g.groups[i][j], red, green, blue);
  }

  /** More cubes of every colour keep a possible game possible. */
  lemma PossibleMonotone(g: Game, red: int, green: int, blue: int, red': int, green': int, blue': int)
    requires red <= red' && green <= green' && blue <= blue'
    requires Possible(g, red, green, blue)
    ensures Possible(g, red', green', blue')
  {
  }

  /** The ids of the games that are possible add up to at most the sum of all positive ids. */
  lemma IdSumBounds(games: seq<Game>, red: int, green: int, blue: int)
    requires forall k :: 0 <= k < |games| ==> games[k].id > 0
    ensures 0 <= IdSum(games, red, green, blue) <= AllIds(games)
  {
    if games != [] {
      IdSumBounds(games[..|games| - 1], red, green, blue);
    }
  }

  function AllIds(games: seq<Game>): int
  {
    if games == [] then 0 else AllIds(games[..|games| - 1]) + games[|games| - 1].id
  }

  /** The inner loops of part 1: whether some draw of the game breaks the limits. */
  method UnderConstraint(g: Game, red: int, green: int, blue: int) returns (ok: bool)
    ensures ok <==> Possible(g, red, green, blue)
  {
    ok := true;
    var i := 0;
    while i < |g.groups|
      invariant 0 <= i <= |g.groups|
      invariant ok <==> forall i', j :: 0 <= i' < i && 0 <= j < |g.groups[i']| ==> Allowed(g.groups[i'][j], red, green, blue)
    {
      var group := g.groups[i];
      var j := 0;
      ghost var before := ok;
      while j < |group|
        invariant 0 <= j <= |group|
        invariant ok <==> before && forall j' :: 0 <= j' < j ==> Allowed(group[j'], red, green, blue)
      {
        var d := group[j];
        var isPossible;
        if d.colour == "red" {
          isPossible := d.num <= red;
        } else if d.colour == "green" {
          isPossible := d.num <= green;
        } else if d.colour == "blue" {
          isPossible := d.num <= blue;
        } else {
          isPossible := false;
        }
        if !isPossible {
          ok := false;
        }
        j := j + 1;
      }
      i := i + 1;
    }
  }

  /** Part 1's `solve`. */
  method SolvePossible(games: seq<Game>, red: int, green: int, blue: int) returns (total: int)
    ensures total == IdSum(games, red, green, blue)
  {
    total := 0;
    var k := 0;
    while k < |games|
      invariant 0 <= k <= |games|
      invariant total == IdSum(games[..k], red, green, blue)
    {
      assert games[..k + 1][..k] == games[..k];
      var ok := UnderConstraint(games[k], red, green, blue);
      if ok {
        total := total + games[k].id;
      }
      k := k + 1;
    }
    assert games[..k] == games;
  }

  /** Part 2: the regex `(\d+) (red|green|blue)` yields the (count, colour) captures of a
      game, so the colour is one of the three. */
  datatype Colour = Red | Green | Blue

  datatype Capture = Capture(count: int, colour: Colour)

  /** The largest count captured for `colour`, or 0 when there is none. */
  function MaxCount(cs: seq<Capture>, colour: Colour): (m: int)
    ensures m >= 0
    ensures forall k :: 0 <= k < |cs| && cs[k].colour == colour ==> cs[k].count <= m
    ensures m == 0 || exists k :: 0 <= k < |cs| && cs[k].colour == colour && cs[k].count == m
  {
    if cs == [] then 0
    else
      var rest := MaxCount(cs[..|cs| - 1], colour);
      var c := cs[|cs| - 1];
      assert forall k :: 0 <= k < |cs| - 1 ==> cs[..|cs| - 1][k] == cs[k];
      if c.colour == colour && c.count > rest then c.count else rest
  }

  /** The power of a game: the product of the three maxima. */
  function Power(cs: seq<Capture>): int
  {
    MaxCount(cs, Red) * MaxCount(cs, Green) * MaxCount(cs, Blue)
  }

  /** A game in which some colour is never captured has power 0. */
  lemma MissingColourPower(cs: seq<Capture>, colour: Colour)
    requires forall k :: 0 <= k < |cs| ==> cs[k].colour != colour
    ensures Power(cs) == 0
  {
  }

  /** The maxima are limits under which every capture is allowed, and the least such:
      any limits allowing every capture are at least the (non-zero) maxima. */
  lemma MaximaAreLeastLimits(cs: seq<Capture>, red: int, green: int, blue: int)
    ensures forall k :: 0 <= k < |cs| ==> AllowedCapture(cs[k], MaxCount(cs, Red), MaxCount(cs, Green), MaxCount(cs, Blue))
    ensures (forall k :: 0 <= k < |cs| ==> AllowedCapture(cs[k], red, green, blue)) ==>
              (MaxCount(cs, Red) == 0 || MaxCount(cs, Red) <= red) &&
              (MaxCount(cs, Green) == 0 || MaxCount(cs, Green) <= green) &&
              (MaxCount(cs, Blue) == 0 || MaxCount(cs, Blue) <= blue)
  {
    forall k | 0 <= k < |cs|
      ensures AllowedCapture(cs[k], MaxCount(cs, Red), MaxCount(cs, Green), MaxCount(cs, Blue))
    {
      match cs[k].colour
      case Red =>
      case Green =>
      case Blue =>
    }
    if forall k :: 0 <= k < |cs| ==> AllowedCapture(cs[k], red, green, blue) {
      if MaxCount(cs, Red) != 0 {
        var k :| 0 <= k < |cs| && cs[k].colour == Red && cs[k].count == MaxCount(cs, Red);
        assert AllowedCapture(cs[k], red, green, blue);
      }
      if MaxCount(cs, Green) != 0 {
        var k :| 0 <= k < |cs| && cs[k].colour == Green && cs[k].count == MaxCount(cs, Green);
        assert AllowedCapture(cs[k], red, green, blue);
      }
      if MaxCount(cs, Blue) != 0 {
        var k :| 0 <= k < |cs| && cs[k].colour == Blue && cs[k].count == MaxCount(cs, Blue);
        assert AllowedCapture(cs[k], red, green, blue);
      }
    }
  }

  /** A capture is within the limit of its colour. */
  predicate AllowedCapture(c: Capture, red: int, green: int, blue: int)
  {
    match c.colour
    case Red => c.count <= red
    case Green => c.count <= green
    case Blue => c.count <= blue
  }

  /** The per-game loop of part 2. */
  method GamePower(cs: seq<Capture>) returns (p: int)
    ensures p == Power(cs)
  {
    var red, green, blue := 0, 0, 0;
    var k := 0;
    while k < |cs|
      invariant 0 <= k <= |cs|
      invariant red == MaxCount(cs[..k], Red) && green == MaxCount(cs[..k], Green) && blue == MaxCount(cs[..k], Blue)
    {
      assert cs[..k + 1][..k] == cs[..k];
      var c := cs[k];
      match c.colour {
        case Red => red := if red > c.count then red else c.count;
        case Green => green := if green > c.count then green else c.count;
        case Blue => blue := if blue > c.count then blue else c.count;
      }
      k := k + 1;
    }
    assert cs[..k] == cs;
    p := red * green * blue;
  }

  function PowerSum(games: seq<seq<Capture>>): int
  {
    if games == [] then 0 else PowerSum(games[..|games| - 1]) + Power(games[|games| - 1])
  }

  /** Part 2's `solve`. */
  method SolvePower(games: seq<seq<Capture>>) returns (total: int)
    ensures total == PowerSum(games)
  {
    total := 0;
    var k := 0;
    while k < |games|
      invariant 0 <= k <= |games|
      invariant total == PowerSum(games[..k])
    {
      assert games[..k + 1][..k] == games[..k];
      var p := GamePower(games[k]);
      total := total + p;
      k := k + 1;
    }
    assert games[..k] == games;
  }

  /** The five games of the part 2 example, as the regex captures them. */
  const ExampleGames: seq<seq<Capture>> := [
    [Capture(3, Blue), Capture(4, Red), Capture(1, Red), Capture(2, Green), Capture(6, Blue), Capture(2, Green)],
    [Capture(1, Blue), Capture(2, Green), Capture(3, Green), Capture(4, Blue), Capture(1, Red), Capture(1, Green), Capture(1, Blue)],
    [Capture(8, Green), Capture(6, Blue), Capture(20, Red), Capture(5, Blue), Capture(4, Red), Capture(13, Green), Capture(5, Green), Capture(1, Red)],
    [Capture(1, Green), Capture(3, Red), Capture(6, Blue), Capture(3, Green), Capture(6, Red), Capture(3, Green), Capture(15, Blue), Capture(14, Red)],
    [Capture(6, Red), Capture(1, Blue), Capture(3, Green), Capture(2, Blue), Capture(1, Red), Capture(2, Green)]]

  /** A non-negative count that bounds every count of `colour` and is attained at `w` is the
      maximum. */
  lemma MaxCountIs(cs: seq<Capture>, colour: Colour, m: int, w: nat)
    requires w < |cs| && cs[w].colour == colour && cs[w].count == m && m >= 0
    requires forall k :: 0 <= k < |cs| && cs[k].colour == colour ==> cs[k].count <= m
    ensures MaxCount(cs, colour) == m
  {
  }

  lemma ExampleGame1() ensures Power(ExampleGames[0]) == 48
  {
    var g := ExampleGames[0];
    MaxCountIs(g, Red, 4, 1);
    MaxCountIs(g, Green, 2, 3);
    MaxCountIs(g, Blue, 6, 4);
  }

  lemma ExampleGame2() ensures Power(ExampleGames[1]) == 12
  {
    var g := ExampleGames[1];
    MaxCountIs(g, Red, 1, 4);
    MaxCountIs(g, Green, 3, 2);
    MaxCountIs(g, Blue, 4, 3);
  }

  lemma ExampleGame3() ensures Power(ExampleGames[2]) == 1560
  {
    var g := ExampleGames[2];
    MaxCountIs(g, Red, 20, 2);
    MaxCountIs(g, Green, 13, 5);
    MaxCountIs(g, Blue, 6, 1);
  }

  lemma ExampleGame4() ensures Power(ExampleGames[3]) == 630
  {
    var g := ExampleGames[3];
    MaxCountIs(g, Red, 14, 7);
    MaxCountIs(g, Green, 3, 3);
    MaxCountIs(g, Blue, 15, 6);
  }

  lemma ExampleGame5() ensures Power(ExampleGames[4]) == 36
  {
    var g := ExampleGames[4];
    MaxCountIs(g, Red, 6, 0);
    MaxCountIs(g, Green, 3, 2);
    MaxCountIs(g, Blue, 2, 3);
  }

  /** The part 2 example totals 2286. */
  lemma PowerExample()
    ensures PowerSum(ExampleGames) == 2286
  {
    ExampleGame1();
    ExampleGame2();
    ExampleGame3();
    ExampleGame4();
    ExampleGame5();
    var gs := ExampleGames;
    assert gs[..5][..4] == gs[..4] && gs[..4][..3] == gs[..3] && gs[..3][..2] == gs[..2] && gs[..2][..1] == gs[..1] && gs[..1][..0] == [];
    assert PowerSum(gs[..1]) == 48;
    assert PowerSum(gs[..2]) == 60;
    assert PowerSum(gs[..3]) == 1620;
    assert PowerSum(gs[..4]) == 2250;
    assert gs[..5] == gs;
  }
}
