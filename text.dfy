/** Text helpers shared by the puzzles: splitting at a separator, finding a character,
    and reading and writing integers in decimal or hex the way Rust's `parse` and
    `from_str_radix` read them. */
module Text {
  import opened Wrappers

  /** `split(sep)`: the pieces between separators, empty ones included. */
  function Split(s: string, sep: char): (r: seq<string>)
    ensures |r| >= 1
    ensures forall i :: 0 <= i < |r| ==> sep !in r[i]
  {
    if s == [] then [[]]
    else
      var r := Split(s[..|s| - 1], sep);
      var c := s[|s| - 1];
      if c == sep then r + [[]] else r[..|r| - 1] + [r[|r| - 1] + [c]]
  }

  /** A string without the separator is one piece. */
  lemma {:induction false} OnePiece(s: string, sep: char)
    requires sep !in s
    ensures Split(s, sep) == [s]
    decreases |s|
  {
    if s != [] {
      var front := s[..|s| - 1];
      assert sep !in front by {
        forall i | 0 <= i < |front| ensures front[i] != sep {
          assert front[i] == s[i];
        }
      }
      OnePiece(front, sep);
      assert front + [s[|s| - 1]] == s;
    }
  }

  /** The pieces put back together with the separator between each two. */
  function Join(pieces: seq<string>, sep: char): string
  {
    if |pieces| <= 1 then (if pieces == [] then [] else pieces[0])
    else Join(pieces[..|pieces| - 1], sep) + [sep] + pieces[|pieces| - 1]
  }

  lemma {:induction false} JoinSplit(s: string, sep: char)
    ensures Join(Split(s, sep), sep) == s
    decreases |s|
  {
    if s != [] {
      var front := s[..|s| - 1];
      var r := Split(front, sep);
      var c := s[|s| - 1];
      JoinSplit(front, sep);
      if c == sep {
        var r' := r + [[]];
        assert r'[..|r'| - 1] == r;
        assert Join(r', sep) == front + [sep] + [];
      } else {
        var last := r[|r| - 1] + [c];
        var r' := r[..|r| - 1] + [last];
        assert r'[..|r'| - 1] == r[..|r| - 1];
        if |r| == 1 {
          assert Join(r', sep) == last;
        } else {
          assert Join(r, sep) == Join(r[..|r| - 1], sep) + [sep] + r[|r| - 1];
          assert Join(r', sep) == Join(r[..|r| - 1], sep) + [sep] + last;
        }
      }
    }
  }

  /** A separator followed by a piece without one adds that piece after the pieces of what
      comes before. */
  lemma {:induction false} SplitAppend(front: string, sep: char, piece: string)
    requires sep !in piece
    ensures Split(front + [sep] + piece, sep) == Split(front, sep) + [piece]
    decreases |piece|
  {
    var s := front + [sep] + piece;
    if piece == [] {
      assert s[..|s| - 1] == front;
    } else {
      var init := piece[..|piece| - 1];
      assert sep !in init by {
        forall i | 0 <= i < |init| ensures init[i] != sep {
          assert init[i] == piece[i];
        }
      }
      SplitAppend(front, sep, init);
      assert s[..|s| - 1] == front + [sep] + init;
      assert init + [piece[|piece| - 1]] == piece;
    }
  }

  /** Splitting pieces joined with a separator none of them holds gives the pieces back. */
  lemma {:induction false} SplitJoin(pieces: seq<string>, sep: char)
    requires |pieces| >= 1
    requires forall i :: 0 <= i < |pieces| ==> sep !in pieces[i]
    ensures Split(Join(pieces, sep), sep) == pieces
  {
    if |pieces| == 1 {
      OnePiece(pieces[0], sep);
    } else {
      var init := pieces[..|pieces| - 1];
      assert forall i :: 0 <= i < |init| ==> init[i] == pieces[i];
      SplitJoin(init, sep);
      SplitAppend(Join(init, sep), sep, pieces[|pieces| - 1]);
      assert init + [pieces[|pieces| - 1]] == pieces;
    }
  }

  /** The index of the first c in s. */
  function Find(s: string, c: char): (r: Option<nat>)
    ensures r.Some? ==> r.value < |s| && s[r.value] == c && c !in s[..r.value]
    ensures r.None? ==> c !in s
  {
    if s == [] then None
    else if s[0] == c then Some(0)
    else match Find(s[1..], c)
      case None => None
      case Some(i) =>
        assert s[..i + 1] == [s[0]] + s[1..][..i];
        Some(i + 1)
  }

  /** `split_once(c)`: the text before and after the first c, or None when there is none. */
  function SplitOnce(s: string, c: char): (r: Option<(string, string)>)
    ensures r.None? <==> c !in s
    ensures r.Some? ==> s == r.value.0 + [c] + r.value.1 && c !in r.value.0
  {
    match Find(s, c)
    case None => None
    case Some(i) =>
      assert s == s[..i] + [c] + s[i + 1..];
      Some((s[..i], s[i + 1..]))
  }

  /** Text without c, then c, then anything: split at that c. */
  lemma SplitOnceAt(front: string, c: char, back: string)
    requires c !in front
    ensures SplitOnce(front + [c] + back, c) == Some((front, back))
  {
    var s := front + [c] + back;
    assert s[|front|] == c;
    assert s[..|front|] == front;
    assert s[|front| + 1..] == back;
  }

  /** `to_digit(radix)` for radix 10 or 16: decimal digits, and letters of either case from
      'a' on. */
  function DigitValue(c: char, radix: nat): (r: Option<nat>)
    requires radix == 10 || radix == 16
    ensures r.Some? ==> r.value < radix
  {
    if '0' <= c <= '9' then Some(c as int - '0' as int)
    else if radix == 16 && 'a' <= c <= 'f' then Some(c as int - 'a' as int + 10)
    else if radix == 16 && 'A' <= c <= 'F' then Some(c as int - 'A' as int + 10)
    else None
  }

  /** The digit a value is written with, letters in lower case. */
  function DigitChar(d: nat, radix: nat): (c: char)
    requires radix == 10 || radix == 16
    requires d < radix
    ensures DigitValue(c, radix) == Some(d)
  {
    if d < 10 then ('0' as int + d) as char else ('a' as int + d - 10) as char
  }

  /** A non-empty run of digits and its value, most significant first. */
  function Unsigned(s: string, radix: nat): (r: Option<nat>)
    requires radix == 10 || radix == 16
    ensures r.Some? <==> |s| > 0 && forall i :: 0 <= i < |s| ==> DigitValue(s[i], radix).Some?
  {
    if s == [] then None
    else
      var d := DigitValue(s[|s| - 1], radix);
      if d.None? then None
      else if |s| == 1 then d
      else
        match Unsigned(s[..|s| - 1], radix)
        case None => None
        case Some(v) => Some(v * radix + d.value)
  }

  /** `from_str_radix` into a signed integer: an optional '+' or '-' and then a non-empty
      run of digits. The source's fixed widths are not modelled. */
  function ParseRadix(s: string, radix: nat): (r: Option<int>)
    requires radix == 10 || radix == 16
    ensures r.Some? <==> (Unsigned(s, radix).Some? ||
                          (|s| > 0 && (s[0] == '+' || s[0] == '-') && Unsigned(s[1..], radix).Some?))
  {
    if s == [] then None
    else if s[0] == '+' then
      match Unsigned(s[1..], radix)
      case None => None
      case Some(v) => Some(v)
    else if s[0] == '-' then
      match Unsigned(s[1..], radix)
      case None => None
      case Some(v) => Some(-(v as int))
    else
      match Unsigned(s, radix)
      case None => None
      case Some(v) => Some(v)
  }

  /** A value written out in the radix, without leading zeros. */
  function Numeral(n: nat, radix: nat): (s: string)
    requires radix == 10 || radix == 16
    ensures |s| > 0
  {
    if n < radix then [DigitChar(n, radix)] else Numeral(n / radix, radix) + [DigitChar(n % radix, radix)]
  }

  lemma {:induction false} NumeralReads(n: nat, radix: nat)
    requires radix == 10 || radix == 16
    ensures Unsigned(Numeral(n, radix), radix) == Some(n)
    decreases n
  {
    var s := Numeral(n, radix);
    if n >= radix {
      NumeralReads(n / radix, radix);
      assert s[..|s| - 1] == Numeral(n / radix, radix);
    }
  }

  /** An integer written out, with a '-' when negative. */
  function Signed(n: int, radix: nat): string
    requires radix == 10 || radix == 16
  {
    if n < 0 then "-" + Numeral(-n, radix) else Numeral(n, radix)
  }

  /** Every integer, written with a '-' when negative, parses back to itself. */
  lemma SignedReads(n: int, radix: nat)
    requires radix == 10 || radix == 16
    ensures ParseRadix(Signed(n, radix), radix) == Some(n)
  {
    if n < 0 {
      NegativeReads(-n, radix);
    } else {
      NaturalReads(n, radix);
    }
  }

  lemma NaturalReads(n: nat, radix: nat)
    requires radix == 10 || radix == 16
    ensures ParseRadix(Numeral(n, radix), radix) == Some(n)
  {
    var s := Numeral(n, radix);
    NumeralReads(n, radix);
    assert DigitValue(s[0], radix).Some?;
  }

  lemma NegativeReads(n: nat, radix: nat)
    requires radix == 10 || radix == 16
    requires n > 0
    ensures ParseRadix("-" + Numeral(n, radix), radix) == Some(-(n as int))
  {
    var s := "-" + Numeral(n, radix);
    NumeralReads(n, radix);
    assert s[0] == '-' && s[1..] == Numeral(n, radix);
  }

  /** A character that is neither a sign nor a digit of the radix never appears in a
      written integer. */
  lemma SignedOmits(n: int, radix: nat, c: char)
    requires radix == 10 || radix == 16
    requires c != '-' && c != '+' && DigitValue(c, radix).None?
    ensures c !in Signed(n, radix)
  {
    var s := Signed(n, radix);
    SignedReads(n, radix);
    if Unsigned(s, radix).None? {
      assert forall i :: 1 <= i < |s| ==> s[i] == s[1..][i - 1];
    }
  }
}
