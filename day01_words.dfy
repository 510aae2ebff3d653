/** Day 1, part 2: digits may also be spelled out ("one" … "nine"). The leftmost and the
    rightmost occurrence of any key of the word/digit table decide a line's calibration
    value. The table is a `HashMap`, so the search visits its keys in an arbitrary order:
    here the table is the sequence of its entries in that order, and the result is shown
    not to depend on it. */
module Day01Words {
  import opened Wrappers
  import Day01Calibration

  /** One entry of the table: a key and the digit it stands for. */
  datatype Key = Key(word: string, value: int)

  /** `k` occurs in `s` starting at `i`. */
  predicate Occurs(s: string, k: string, i: int)
  {
    0 <= i && i + |k| <= |s| && s[i..i + |k|] == k
  }

  /** `str::find` from position `i` on: the least start of an occurrence of `k`. */
  function FindFrom(s: string, k: string, i: nat): (r: Option<nat>)
    requires i <= |s|
    ensures r.Some? ==> i <= r.value && Occurs(s, k, r.value)
    ensures r.Some? ==> forall j :: i <= j < r.value ==> !Occurs(s, k, j)
    ensures r.None? ==> forall j :: i <= j ==> !Occurs(s, k, j)
    decreases |s| - i
  {
    if i + |k| > |s| then None
    else if s[i..i + |k|] == k then Some(i)
    else if i == |s| then None
    else FindFrom(s, k, i + 1)
  }

  function Find(s: string, k: string): Option<nat>
  {
    FindFrom(s, k, 0)
  }

  /** No key of the table is a prefix of another one, so two keys never match at the same
      place. */
  predicate PrefixFree(t: seq<Key>)
  {
    forall a, b :: a in t && b in t && a.word != b.word && |a.word| <= |b.word| ==>
      a.word != b.word[..|a.word|]
  }

  /** Equal keys carry equal values, as in a map. */
  predicate Functional(t: seq<Key>)
  {
    forall a, b :: a in t && b in t && a.word == b.word ==> a.value == b.value
  }

  /** `a` is an entry whose key's first occurrence is the leftmost of all first occurrences. */
  ghost predicate IsLeftmostKey(s: string, t: seq<Key>, a: Key)
  {
    a in t && Find(s, a.word).Some?
    && forall b :: b in t && Find(s, b.word).Some? ==> Find(s, a.word).value <= Find(s, b.word).value
  }

  /** `r` is what a left-to-right search reports: -1 when no key occurs, otherwise the value
      of a leftmost key. The predicate depends on the entries, not on their order. */
  ghost predicate IsLeftmostValue(s: string, t: seq<Key>, r: int)
  {
    if forall a :: a in t ==> Find(s, a.word).None? then r == -1
    else exists a :: IsLeftmostKey(s, t, a) && a.value == r
  }

  /** Two keys occurring at the same place are prefixes of one another. */
  lemma SameStart(s: string, a: string, b: string, i: int)
    requires Occurs(s, a, i) && Occurs(s, b, i) && |a| <= |b|
    ensures a == b[..|a|]
  {
    assert s[i..i + |b|][..|a|] == s[i..i + |a|];
  }

  /** On a prefix-free table at most one value is the leftmost one, so the order in which
      the search visits the entries does not matter. */
  lemma LeftmostUnique(s: string, t: seq<Key>, r1: int, r2: int)
    requires PrefixFree(t) && Functional(t)
    requires IsLeftmostValue(s, t, r1) && IsLeftmostValue(s, t, r2)
    ensures r1 == r2
  {
    if !forall a :: a in t ==> Find(s, a.word).None? {
      var a1 :| IsLeftmostKey(s, t, a1) && a1.value == r1;
      var a2 :| IsLeftmostKey(s, t, a2) && a2.value == r2;
      var i := Find(s, a1.word).value;
      assert Find(s, a2.word).value == i;
      if |a1.word| <= |a2.word| {
        SameStart(s, a1.word, a2.word, i);
      } else {
        SameStart(s, a2.word, a1.word, i);
      }
    }
  }

  /** Some value is the leftmost one, so the specification below is well defined. */
  lemma LeftmostExists(s: string, t: seq<Key>)
    ensures exists r :: IsLeftmostValue(s, t, r)
  {
    if !forall a :: a in t ==> Find(s, a.word).None? {
      var a0 :| a0 in t && Find(s, a0.word).Some?;
      var best := LeftmostEntry(s, t, |t|, a0);
      assert IsLeftmostKey(s, t, best);
      assert IsLeftmostValue(s, t, best.value);
    } else {
      assert IsLeftmostValue(s, t, -1);
    }
  }

  /** An entry whose key occurs no later than those of `t[..n]` and than the one of `a0`. */
  lemma LeftmostEntry(s: string, t: seq<Key>, n: nat, a0: Key) returns (best: Key)
    requires n <= |t| && a0 in t && Find(s, a0.word).Some?
    ensures best in t && Find(s, best.word).Some? && Find(s, best.word).value <= Find(s, a0.word).value
    ensures forall i :: 0 <= i < n && Find(s, t[i].word).Some? ==> Find(s, best.word).value <= Find(s, t[i].word).value
  {
    if n == 0 {
      best := a0;
    } else {
      var rest := LeftmostEntry(s, t, n - 1, a0);
      var a := t[n - 1];
      if Find(s, a.word).Some? && Find(s, a.word).value < Find(s, rest.word).value {
        best := a;
      } else {
        best := rest;
      }
    }
  }

  /** The value a left-to-right search over the table reports, whatever the visiting order. */
  ghost function LeftValue(s: string, t: seq<Key>): (r: int)
    ensures IsLeftmostValue(s, t, r)
  {
    LeftmostExists(s, t);
    var r :| IsLeftmostValue(s, t, r);
    r
  }

  /** The sentinel start index of the source's search. */
  const NotFound := 9999999

  /** `find_from_left`: `t` holds the table's entries in the order the hash map yields them. */
  method FindFromLeft(s: string, t: seq<Key>) returns (r: int)
    requires forall a :: a in t ==> a.value >= 0
    requires |s| < NotFound
    ensures IsLeftmostValue(s, t, r)
    ensures PrefixFree(t) && Functional(t) ==> r == LeftValue(s, t)
  {
    var earliestIndex := NotFound;
    r := -1;
    var j := 0;
    while j < |t|
      invariant 0 <= j <= |t|
      invariant r == -1 <==> forall a :: a in t[..j] ==> Find(s, a.word).None?
      invariant r == -1 ==> earliestIndex == NotFound
      invariant r != -1 ==> exists a :: a in t[..j] && a.value == r && Find(s, a.word) == Some(earliestIndex)
      invariant r != -1 ==> earliestIndex < NotFound
      invariant forall a :: a in t[..j] && Find(s, a.word).Some? ==> earliestIndex <= Find(s, a.word).value
    {
      assert t[..j + 1] == t[..j] + [t[j]];
      var found := Find(s, t[j].word);
      if found.Some? {
        if found.value < earliestIndex {
          earliestIndex := found.value;
          r := t[j].value;
        }
      }
      j := j + 1;
    }
    assert t[..j] == t;
    if PrefixFree(t) && Functional(t) {
      LeftmostUnique(s, t, r, LeftValue(s, t));
    }
  }

  function Reverse(s: string): string
  {
    Day01Calibration.Reverse(s)
  }

  /** The table with every key spelled backwards, as `find_from_right` builds it. */
  function ReversedTable(t: seq<Key>): (rt: seq<Key>)
    ensures |rt| == |t| && forall i :: 0 <= i < |t| ==> rt[i] == Key(Reverse(t[i].word), t[i].value)
  {
    seq(|t|, i requires 0 <= i < |t| => Key(Reverse(t[i].word), t[i].value))
  }

  /** `k` occurs in `s` ending at `e`. */
  predicate EndsAt(s: string, k: string, e: int)
  {
    Occurs(s, k, e - |k|)
  }

  /** An occurrence of a reversed key at `i` in the reversed line is an occurrence of the key
      ending `i` characters before the end of the line: so the leftmost match in the reversed
      line is the match of the original line that ends rightmost. */
  lemma OccursReversed(s: string, k: string, i: int)
    ensures Occurs(Reverse(s), Reverse(k), i) <==> EndsAt(s, k, |s| - i)
  {
    var rs, rk := Reverse(s), Reverse(k);
    if 0 <= i && i + |k| <= |s| {
      var j := |s| - i - |k|;
      if rs[i..i + |k|] == rk {
        forall t | 0 <= t < |k| ensures s[j..j + |k|][t] == k[t] {
          assert rs[i..i + |k|][|k| - 1 - t] == rk[|k| - 1 - t];
        }
        assert s[j..j + |k|] == k;
      }
      if s[j..j + |k|] == k {
        forall t | 0 <= t < |k| ensures rs[i..i + |k|][t] == rk[t] {
          assert s[j..j + |k|][|k| - 1 - t] == k[|k| - 1 - t];
        }
        assert rs[i..i + |k|] == rk;
      }
    }
  }

  /** `r` is what a right-to-left search reports, read on the line itself: -1 when no key
      occurs, otherwise the value of a key whose occurrence ends last. */
  ghost predicate IsRightmostValue(s: string, t: seq<Key>, r: int)
  {
    if forall a, e :: a in t ==> !EndsAt(s, a.word, e) then r == -1
    else
      exists a, e :: a in t && EndsAt(s, a.word, e) && a.value == r &&
        forall b, e' :: b in t && EndsAt(s, b.word, e') ==> e' <= e
  }

  /** A key of the table occurring in the line gives its reversed key a first occurrence
      in the reversed line, at most as far in as the end of the original occurrence is
      from the line's end. */
  lemma FirstReversed(s: string, t: seq<Key>, b: Key, e: int) returns (b': Key)
    requires b in t && EndsAt(s, b.word, e)
    ensures b' in ReversedTable(t) && b'.value == b.value
    ensures Find(Reverse(s), b'.word).Some? && Find(Reverse(s), b'.word).value <= |s| - e
  {
    var k :| 0 <= k < |t| && t[k] == b;
    b' := ReversedTable(t)[k];
    OccursReversed(s, b.word, |s| - e);
    assert Occurs(Reverse(s), b'.word, |s| - e);
  }

  /** The key behind a leftmost reversed key ends last in the line. */
  lemma LastKey(s: string, t: seq<Key>, c: Key) returns (a: Key, e: int)
    requires IsLeftmostKey(Reverse(s), ReversedTable(t), c)
    ensures a in t && EndsAt(s, a.word, e) && a.value == c.value
    ensures forall b, e' :: b in t && EndsAt(s, b.word, e') ==> e' <= e
  {
    var rs, rt := Reverse(s), ReversedTable(t);
    var k :| 0 <= k < |t| && rt[k] == c;
    var i := Find(rs, c.word).value;
    OccursReversed(s, t[k].word, i);
    a, e := t[k], |s| - i;
    forall b, e' | b in t && EndsAt(s, b.word, e') ensures e' <= e {
      var b' := FirstReversed(s, t, b, e');
    }
  }

  /** Where no key occurs in the line, no reversed key occurs in the reversed line. */
  lemma NoKeyReversed(s: string, t: seq<Key>)
    requires forall a, e :: a in t ==> !EndsAt(s, a.word, e)
    ensures forall c :: c in ReversedTable(t) ==> Find(Reverse(s), c.word).None?
  {
    var rs, rt := Reverse(s), ReversedTable(t);
    forall c | c in rt ensures Find(rs, c.word).None? {
      var k :| 0 <= k < |t| && rt[k] == c;
      if Find(rs, c.word).Some? {
        OccursReversed(s, t[k].word, Find(rs, c.word).value);
      }
    }
  }

  /** The leftmost value of the reversed line over the reversed table is the value of the key
      whose occurrence ends last in the line, or -1 when no key occurs. */
  lemma RightmostMeaning(s: string, t: seq<Key>, r: int)
    requires IsLeftmostValue(Reverse(s), ReversedTable(t), r)
    ensures IsRightmostValue(s, t, r)
  {
    if exists a, e :: a in t && EndsAt(s, a.word, e) {
      var a, e :| a in t && EndsAt(s, a.word, e);
      var a' := FirstReversed(s, t, a, e);
      var c :| IsLeftmostKey(Reverse(s), ReversedTable(t), c) && c.value == r;
      var b, e' := LastKey(s, t, c);
    } else {
      NoKeyReversed(s, t);
    }
  }

  /** `find_from_right`: the reversed table is visited in the order `t` gives. */
  method FindFromRight(s: string, t: seq<Key>) returns (r: int)
    requires forall a :: a in t ==> a.value >= 0
    requires |s| < NotFound
    ensures IsLeftmostValue(Reverse(s), ReversedTable(t), r)
    ensures IsRightmostValue(s, t, r)
    ensures PrefixFree(ReversedTable(t)) && Functional(ReversedTable(t)) ==> r == RightValue(s, t)
  {
    var line := Reverse(s);
    var mapping := ReversedTable(t);
    r := FindFromLeft(line, mapping);
    RightmostMeaning(s, t, r);
  }

  /** The value `find_from_right` reports, whatever the visiting order. */
  ghost function RightValue(s: string, t: seq<Key>): int
  {
    LeftValue(Reverse(s), ReversedTable(t))
  }

  /** The table `solve` builds: spelled-out digits, then the digits themselves. */
  const Table: seq<Key> := [
    Key("one", 1), Key("two", 2), Key("three", 3), Key("four", 4), Key("five", 5),
    Key("six", 6), Key("seven", 7), Key("eight", 8), Key("nine", 9),
    Key("0", 0), Key("1", 1), Key("2", 2), Key("3", 3), Key("4", 4),
    Key("5", 5), Key("6", 6), Key("7", 7), Key("8", 8), Key("9", 9)]

  /** `a` and `b` differ at position `n` counted from the front, or from the back. */
  predicate DifferAt(a: string, b: string, n: nat, front: bool)
  {
    n < |a| && n < |b| &&
    if front then a[n] != b[n] else a[|a| - 1 - n] != b[|b| - 1 - n]
  }

  /** `a` and `b` differ within their first (or last) three characters. */
  predicate Differ(a: string, b: string, front: bool)
  {
    DifferAt(a, b, 0, front) || DifferAt(a, b, 1, front) || DifferAt(a, b, 2, front)
  }

  /** Entries at distinct places have keys that differ near their fronts (or ends). */
  predicate Apart(t: seq<Key>, front: bool)
  {
    forall i, j :: 0 <= i < |t| && 0 <= j < |t| && i != j ==> Differ(t[i].word, t[j].word, front)
  }

  lemma ApartFree(t: seq<Key>)
    requires Apart(t, true)
    ensures PrefixFree(t) && Functional(t)
  {
    forall a, b | a in t && b in t && a.word != b.word && |a.word| <= |b.word| ensures a.word != b.word[..|a.word|] {
      var i :| 0 <= i < |t| && t[i] == a;
      var j :| 0 <= j < |t| && t[j] == b;
      assert Differ(a.word, b.word, true);
    }
    forall a, b | a in t && b in t && a.word == b.word ensures a.value == b.value {
      var i :| 0 <= i < |t| && t[i] == a;
      var j :| 0 <= j < |t| && t[j] == b;
      assert !Differ(a.word, b.word, true);
    }
  }

  /** Keys that differ near their ends differ near their fronts once reversed. */
  lemma ApartReversed(t: seq<Key>)
    requires Apart(t, false)
    ensures Apart(ReversedTable(t), true)
  {
    var rt := ReversedTable(t);
    forall i, j | 0 <= i < |rt| && 0 <= j < |rt| && i != j ensures Differ(rt[i].word, rt[j].word, true) {
      assert Differ(t[i].word, t[j].word, false);
    }
  }

  /** Each key of the table differs from every other one in its first two characters. */
  lemma TableRowFront(i: nat)
    requires i < |Table|
    ensures forall j :: 0 <= j < |Table| && j != i ==> Differ(Table[i].word, Table[j].word, true)
  {
  }

  /** Each key of the table differs from every other one in its last three characters. */
  lemma TableRowBack(i: nat)
    requires i < |Table|
    ensures forall j :: 0 <= j < |Table| && j != i ==> Differ(Table[i].word, Table[j].word, false)
  {
    if i < 9 {
      WordRowBack(i);
    } else {
      assert forall j :: 0 <= j < |Table| && j != i ==> DifferAt(Table[i].word, Table[j].word, 0, false);
    }
  }

  lemma WordRowBack(i: nat)
    requires i < 9
    ensures forall j :: 0 <= j < |Table| && j != i ==> Differ(Table[i].word, Table[j].word, false)
  {
    // Splitting the rows keeps each case small for the solver.
    if i < 3 {
    } else if i < 6 {
    } else {
    }
  }

  lemma TableApart()
    ensures Apart(Table, true) && Apart(Table, false)
  {
    forall i | 0 <= i < |Table| ensures forall j :: 0 <= j < |Table| && j != i ==> Differ(Table[i].word, Table[j].word, true) {
      TableRowFront(i);
    }
    forall i | 0 <= i < |Table| ensures forall j :: 0 <= j < |Table| && j != i ==> Differ(Table[i].word, Table[j].word, false) {
      TableRowBack(i);
    }
  }

  /** The table meets what the order independence of both searches needs, and every value
      is a digit. */
  lemma TableFree()
    ensures PrefixFree(Table) && Functional(Table)
    ensures PrefixFree(ReversedTable(Table)) && Functional(ReversedTable(Table))
    ensures forall a :: a in Table ==> 0 <= a.value <= 9
  {
    TableFrontFree();
    TableBackFree();
    TableDigits();
  }

  lemma TableFrontFree()
    ensures PrefixFree(Table) && Functional(Table)
  {
    TableApart();
    ApartFree(Table);
  }

  lemma TableBackFree()
    ensures PrefixFree(ReversedTable(Table)) && Functional(ReversedTable(Table))
  {
    TableApart();
    ApartReversed(Table);
    ApartFree(ReversedTable(Table));
  }

  lemma TableDigits()
    ensures forall a :: a in Table ==> 0 <= a.value <= 9
  {
    forall a | a in Table ensures 0 <= a.value <= 9 {
      var i :| 0 <= i < |Table| && Table[i] == a;
    }
  }

  /** Two tables with the same entries, in whatever order, report the same values. */
  lemma SameEntries(t1: seq<Key>, t2: seq<Key>)
    requires forall a :: a in t1 <==> a in t2
    requires PrefixFree(t1) && Functional(t1) && PrefixFree(ReversedTable(t1)) && Functional(ReversedTable(t1))
    ensures PrefixFree(t2) && Functional(t2) && PrefixFree(ReversedTable(t2)) && Functional(ReversedTable(t2))
    ensures forall s :: LeftValue(s, t1) == LeftValue(s, t2) && RightValue(s, t1) == RightValue(s, t2)
  {
    ReversedIn(t1, t2);
    ReversedIn(t2, t1);
    forall s: string ensures LeftValue(s, t1) == LeftValue(s, t2) && RightValue(s, t1) == RightValue(s, t2) {
      SameLeftmost(s, t1, t2, LeftValue(s, t2));
      LeftmostUnique(s, t1, LeftValue(s, t1), LeftValue(s, t2));
      var rs := Reverse(s);
      SameLeftmost(rs, ReversedTable(t1), ReversedTable(t2), LeftValue(rs, ReversedTable(t2)));
      LeftmostUnique(rs, ReversedTable(t1), LeftValue(rs, ReversedTable(t1)), LeftValue(rs, ReversedTable(t2)));
    }
  }

  /** Reversing keeps one table's entries among another's. */
  lemma ReversedIn(t1: seq<Key>, t2: seq<Key>)
    requires forall a :: a in t1 ==> a in t2
    ensures forall a :: a in ReversedTable(t1) ==> a in ReversedTable(t2)
  {
    var r1, r2 := ReversedTable(t1), ReversedTable(t2);
    forall a | a in r1 ensures a in r2 {
      var i :| 0 <= i < |r1| && r1[i] == a;
      assert t1[i] in t2;
      var j :| 0 <= j < |t2| && t2[j] == t1[i];
      assert r2[j] == a;
    }
  }

  /** Being the leftmost value depends on the entries only. */
  lemma SameLeftmost(s: string, t1: seq<Key>, t2: seq<Key>, r: int)
    requires forall a :: a in t1 <==> a in t2
    ensures IsLeftmostValue(s, t1, r) <==> IsLeftmostValue(s, t2, r)
  {
    assert forall a :: IsLeftmostKey(s, t1, a) <==> IsLeftmostKey(s, t2, a);
  }

  /** The sum `solve` computes, with the table visited in any order that lists its entries. */
  ghost function WordSum(lines: seq<string>): int
  {
    if lines == [] then 0
    else
      var line := lines[|lines| - 1];
      WordSum(lines[..|lines| - 1]) + LeftValue(line, Table) * 10 + RightValue(line, Table)
  }

  /** What the order independence gives for any visiting order of the table. */
  lemma AnyOrder(order: seq<Key>)
    requires forall a :: a in order <==> a in Table
    ensures PrefixFree(order) && Functional(order) && PrefixFree(ReversedTable(order)) && Functional(ReversedTable(order))
    ensures forall a :: a in order ==> 0 <= a.value <= 9
    ensures forall s :: LeftValue(s, order) == LeftValue(s, Table) && RightValue(s, order) == RightValue(s, Table)
  {
    TableFree();
    SameEntries(Table, order);
  }

  /** `solve`; `order` is the table in the order the hash map yields its entries. */
  method Solve(lines: seq<string>, order: seq<Key>) returns (total: int)
    requires forall a :: a in order <==> a in Table
    requires forall i :: 0 <= i < |lines| ==> |lines[i]| < NotFound
    ensures total == WordSum(lines)
  {
    total := 0;
    var j := 0;
    while j < |lines|
      invariant 0 <= j <= |lines|
      invariant total == WordSum(lines[..j])
    {
      assert lines[..j + 1][..j] == lines[..j];
      var v := LineValue(lines[j], order);
      total := total + v;
      j := j + 1;
    }
    assert lines[..j] == lines;
  }

  /** The loop body of `solve`: ten times the leftmost value plus the rightmost one. */
  method LineValue(line: string, order: seq<Key>) returns (v: int)
    requires forall a :: a in order <==> a in Table
    requires |line| < NotFound
    ensures v == LeftValue(line, Table) * 10 + RightValue(line, Table)
  {
    AnyOrder(order);
    var left := FindFromLeft(line, order);
    var right := FindFromRight(line, order);
    v := left * 10 + right;
  }
}
