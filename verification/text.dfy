/**
 * Character-string helpers that the samples take from their languages' standard
 * libraries: padding with blanks, decimal printing and parsing, ASCII lower-casing,
 * substring search, splitting and joining on a separator, and searching backwards.
 */
module Text {
  import opened Wrappers
  import opened Seqs

  /** A string of `n` blanks. */
  function Spaces(n: nat): (s: string)
    ensures |s| == n
    ensures forall i :: 0 <= i < n ==> s[i] == ' '
  {
    if n == 0 then "" else Spaces(n - 1) + " "
  }

  predicate IsDigit(c: char)
  {
    '0' <= c <= '9'
  }

  predicate AllDigits(s: string)
  {
    forall i :: 0 <= i < |s| ==> IsDigit(s[i])
  }

  function DigitChar(d: nat): (c: char)
    requires d < 10
    ensures IsDigit(c)
  {
    ('0' as int + d) as char
  }

  function DigitValue(c: char): (d: nat)
    requires IsDigit(c)
    ensures d < 10
  {
    c as int - '0' as int
  }

  /** The decimal numeral of `n`, as `std::to_string`, `operator<<` and Python `str` print it. */
  function NatToString(n: nat): (s: string)
    ensures |s| >= 1 && AllDigits(s)
    ensures s[0] == '0' <==> n == 0
    ensures n == 0 ==> s == "0"
    decreases n
  {
    if n < 10 then [DigitChar(n)] else NatToString(n / 10) + [DigitChar(n % 10)]
  }

  /** The decimal numeral of an integer: a minus sign before the numeral of its magnitude. */
  function IntToString(i: int): string
  {
    if i < 0 then "-" + NatToString(-i) else NatToString(i)
  }

  /** The value of a string of decimal digits (leading zeros allowed). */
  function ParseDecimal(s: string): nat
    requires AllDigits(s)
  {
    if s == [] then 0 else ParseDecimal(s[..|s| - 1]) * 10 + DigitValue(s[|s| - 1])
  }

  lemma {:induction false} ParseNatToString(n: nat)
    ensures ParseDecimal(NatToString(n)) == n
    decreases n
  {
    if n >= 10 {
      var s := NatToString(n);
      assert s[..|s| - 1] == NatToString(n / 10);
      ParseNatToString(n / 10);
    }
  }

  /** Distinct numbers print differently. */
  lemma NatToStringInjective(a: nat, b: nat)
    requires NatToString(a) == NatToString(b)
    ensures a == b
  {
    ParseNatToString(a);
    ParseNatToString(b);
  }

  lemma {:induction false} ParseZeros(k: nat)
    ensures ParseDecimal(Repeat('0', k)) == 0
  {
    if k > 0 {
      assert Repeat('0', k)[..k - 1] == Repeat('0', k - 1);
      ParseZeros(k - 1);
    }
  }

  /** Leading zeros do not change the value of a numeral. */
  lemma {:induction false} ParseLeadingZeros(k: nat, s: string)
    requires AllDigits(s)
    ensures AllDigits(Repeat('0', k) + s)
    ensures ParseDecimal(Repeat('0', k) + s) == ParseDecimal(s)
  {
    var z := Repeat('0', k);
    if s == [] {
      assert z + s == z;
      ParseZeros(k);
    } else {
      var t := z + s;
      assert t[..|t| - 1] == z + s[..|s| - 1];
      assert t[|t| - 1] == s[|s| - 1];
      ParseLeadingZeros(k, s[..|s| - 1]);
    }
  }

  function Pow10(k: nat): nat
  {
    if k == 0 then 1 else 10 * Pow10(k - 1)
  }

  lemma {:induction false} ParseBound(s: string)
    requires AllDigits(s)
    ensures ParseDecimal(s) < Pow10(|s|)
  {
    if s != [] {
      ParseBound(s[..|s| - 1]);
    }
  }

  lemma {:induction false} ParseFront(s: string)
    requires AllDigits(s) && s != []
    ensures ParseDecimal(s) == DigitValue(s[0]) * Pow10(|s| - 1) + ParseDecimal(s[1..])
  {
    if |s| > 1 {
      var init := s[..|s| - 1];
      ParseFront(init);
      assert init[1..] == s[1..][..|s| - 2];
      var d0, p, q, last := DigitValue(s[0]), Pow10(|s| - 2), ParseDecimal(init[1..]), DigitValue(s[|s| - 1]);
      assert ParseDecimal(s) == (d0 * p + q) * 10 + last;
      assert ParseDecimal(s[1..]) == q * 10 + last;
      assert Pow10(|s| - 1) == 10 * p;
      ShiftDigit(d0, p, q, last);
    }
  }

  lemma ShiftDigit(d: int, p: int, q: int, last: int)
    ensures (d * p + q) * 10 + last == d * (10 * p) + (q * 10 + last)
  {
  }

  /** The ordering of `std::string` and Python `str`: lexicographic by character code. */
  predicate LexLess(a: string, b: string)
  {
    if b == [] then false
    else if a == [] then true
    else if a[0] != b[0] then a[0] < b[0]
    else LexLess(a[1..], b[1..])
  }

  /** A common prefix does not change the order. */
  lemma {:induction false} LexLessCommonPrefix(p: string, a: string, b: string)
    ensures LexLess(p + a, p + b) <==> LexLess(a, b)
  {
    if p != [] {
      assert (p + a)[1..] == p[1..] + a;
      assert (p + b)[1..] == p[1..] + b;
      LexLessCommonPrefix(p[1..], a, b);
    } else {
      assert p + a == a && p + b == b;
    }
  }

  lemma LeadingDigitDecides(x: nat, y: nat, p: nat, r1: nat, r2: nat)
    requires x < y && r1 < p
    ensures x * p + r1 < y * p + r2
  {
    var d: nat := y - x - 1;
    assert d * p >= 0 by { MulNonNegative(d, p); }
    calc {
      y * p;
      (x + 1 + d) * p;
      x * p + p + d * p;
    }
  }

  lemma MulNonNegative(a: nat, b: nat)
    ensures a * b >= 0
  {
  }

  lemma DigitsTail(s: string)
    requires AllDigits(s) && s != []
    ensures AllDigits(s[1..])
  {
  }

  /** For numerals of equal length, string order is numeric order. */
  lemma {:induction false} LexLessDigits(a: string, b: string)
    requires AllDigits(a) && AllDigits(b) && |a| == |b|
    ensures LexLess(a, b) <==> ParseDecimal(a) < ParseDecimal(b)
  {
    if a != [] {
      DigitsTail(a);
      DigitsTail(b);
      var p := Pow10(|a| - 1);
      var x, y := DigitValue(a[0]), DigitValue(b[0]);
      var ra, rb := ParseDecimal(a[1..]), ParseDecimal(b[1..]);
      ParseFront(a);
      ParseFront(b);
      ParseBound(a[1..]);
      ParseBound(b[1..]);
      assert (x < y) == (a[0] < b[0]) && (x == y) == (a[0] == b[0]);
      if x == y {
        LexLessDigits(a[1..], b[1..]);
      } else if x < y {
        LeadingDigitDecides(x, y, p, ra, rb);
      } else {
        LeadingDigitDecides(y, x, p, rb, ra);
      }
    }
  }

  /** ASCII lower-casing, as C `tolower` does in the "C" locale. */
  function Lower(c: char): char
  {
    if 'A' <= c <= 'Z' then (c as int + 32) as char else c
  }

  function LowerString(s: string): (r: string)
    ensures |r| == |s|
    ensures forall i :: 0 <= i < |s| ==> r[i] == Lower(s[i])
  {
    if s == [] then [] else [Lower(s[0])] + LowerString(s[1..])
  }

  /** `sub` occurs in `s` (`std::string::find` does not return npos; Python `str.find` is >= 0). */
  predicate Contains(s: string, sub: string)
  {
    if sub <= s then true
    else if s == [] then false
    else Contains(s[1..], sub)
  }

  lemma {:induction false} ContainsIff(s: string, sub: string)
    ensures Contains(s, sub) <==> exists i :: 0 <= i <= |s| && sub <= s[i..]
  {
    if sub <= s {
      assert s[0..] == s;
    } else if s != [] {
      ContainsIff(s[1..], sub);
      if exists i :: 0 <= i <= |s| && sub <= s[i..] {
        var i :| 0 <= i <= |s| && sub <= s[i..];
        assert i != 0;
        assert s[1..][i - 1..] == s[i..];
      }
      if exists j :: 0 <= j <= |s[1..]| && sub <= s[1..][j..] {
        var j :| 0 <= j <= |s[1..]| && sub <= s[1..][j..];
        assert s[j + 1..] == s[1..][j..];
      }
    }
  }

  /** Occurrences of `c` in `s`. */
  function CountChar(s: string, c: char): nat
  {
    if s == [] then 0 else (if s[0] == c then 1 else 0) + CountChar(s[1..], c)
  }

  /** Python `str.split(sep)` for a one-character separator: the pieces between separators. */
  function Split(s: string, sep: char): (r: seq<string>)
    ensures |r| >= 1
  {
    if s == [] then [""]
    else
      var rest := Split(s[1..], sep);
      if s[0] == sep then [""] + rest else [[s[0]] + rest[0]] + rest[1..]
  }

  /** Python `sep.join(pieces)`. */
  function Join(pieces: seq<string>, sep: char): string
  {
    if |pieces| == 0 then ""
    else if |pieces| == 1 then pieces[0]
    else pieces[0] + [sep] + Join(pieces[1..], sep)
  }

  lemma JoinCons(first: string, rest: seq<string>, sep: char)
    requires |rest| >= 1
    ensures Join([first] + rest, sep) == first + [sep] + Join(rest, sep)
  {
    assert ([first] + rest)[1..] == rest;
  }

  lemma {:induction false} JoinAppend(pieces: seq<string>, last: string, sep: char)
    requires |pieces| >= 1
    ensures Join(pieces + [last], sep) == Join(pieces, sep) + [sep] + last
  {
    var all := pieces + [last];
    assert all[0] == pieces[0];
    assert all[1..] == pieces[1..] + [last];
    if |pieces| > 1 {
      JoinAppend(pieces[1..], last, sep);
    }
  }

  /** Successive reads of `std::getline(stream, piece, sep)` over `s`: the pieces of `Split`,
      except that an empty piece at the very end (after a final separator, or of an empty
      input) is never read. */
  function StreamSplit(s: string, sep: char): seq<string>
  {
    var parts := Split(s, sep);
    if parts[|parts| - 1] == "" then parts[..|parts| - 1] else parts
  }

  /** Appending the separator to a string starts a new, empty last piece. */
  lemma {:induction false} SplitSnocSeparator(s: string, sep: char)
    ensures Split(s + [sep], sep) == Split(s, sep) + [""]
  {
    var t := s + [sep];
    if s == [] {
      assert t == [sep];
      assert t[1..] == [];
    } else {
      assert t[0] == s[0];
      assert t[1..] == s[1..] + [sep];
      SplitSnocSeparator(s[1..], sep);
    }
  }

  /** Appending any other character to a string extends its last piece. */
  lemma {:induction false} SplitSnocOther(s: string, c: char, sep: char)
    requires c != sep
    ensures var p := Split(s, sep);
      Split(s + [c], sep) == p[..|p| - 1] + [p[|p| - 1] + [c]]
  {
    var t := s + [c];
    if s == [] {
      assert t == [c];
      assert t[1..] == [];
      assert Split(t, sep) == [[c] + ""];
      var p := Split(s, sep);
      assert p == [""];
      assert p[..|p| - 1] + [p[|p| - 1] + [c]] == [[c]];
      assert [c] + "" == [c];
    } else {
      assert t[0] == s[0];
      assert t[1..] == s[1..] + [c];
      SplitSnocOther(s[1..], c, sep);
      var rest := Split(s[1..], sep);
      var rest' := Split(s[1..] + [c], sep);
      var m := |rest|;
      var p := Split(s, sep);
      if s[0] == sep {
        assert p == [""] + rest;
        assert p[..|p| - 1] == [""] + rest[..m - 1];
      } else if m == 1 {
        SplitSnocOtherSingle(s, c, sep);
      } else {
        SplitSnocOtherMany(s, c, sep);
      }
    }
  }

  lemma SplitSnocOtherMany(s: string, c: char, sep: char)
    requires c != sep && s != [] && s[0] != sep && |Split(s[1..], sep)| > 1
    requires var rest := Split(s[1..], sep);
      Split(s[1..] + [c], sep) == rest[..|rest| - 1] + [rest[|rest| - 1] + [c]]
    ensures var p := Split(s, sep);
      Split(s + [c], sep) == p[..|p| - 1] + [p[|p| - 1] + [c]]
  {
    var t := s + [c];
    var rest := Split(s[1..], sep);
    var rest' := Split(s[1..] + [c], sep);
    var m := |rest|;
    var p := Split(s, sep);
    assert t[0] == s[0];
    assert t[1..] == s[1..] + [c];
    assert rest'[0] == rest[0];
    assert rest'[1..] == rest[1..m - 1] + [rest[m - 1] + [c]];
    assert p == [[s[0]] + rest[0]] + rest[1..];
    assert |p| == m;
    assert p[..|p| - 1] == [[s[0]] + rest[0]] + rest[1..][..m - 2];
    assert rest[1..][..m - 2] == rest[1..m - 1];
  }

  lemma SplitSnocOtherSingle(s: string, c: char, sep: char)
    requires c != sep && s != [] && s[0] != sep && |Split(s[1..], sep)| == 1
    requires Split(s[1..] + [c], sep) == [Split(s[1..], sep)[0] + [c]]
    ensures Split(s + [c], sep) == [Split(s, sep)[0] + [c]]
  {
    var t := s + [c];
    var rest := Split(s[1..], sep);
    assert t[0] == s[0];
    assert t[1..] == s[1..] + [c];
    assert Split(s, sep) == [[s[0]] + rest[0]];
    assert Split(t, sep) == [[s[0]] + (rest[0] + [c])];
    assert [s[0]] + (rest[0] + [c]) == ([s[0]] + rest[0]) + [c];
  }

  lemma {:induction false} SplitCount(s: string, sep: char)
    ensures |Split(s, sep)| == CountChar(s, sep) + 1
  {
    if s != [] {
      SplitCount(s[1..], sep);
    }
  }

  lemma {:induction false} SplitPiecesHaveNoSeparator(s: string, sep: char)
    ensures forall k :: 0 <= k < |Split(s, sep)| ==> sep !in Split(s, sep)[k]
  {
    if s != [] {
      SplitPiecesHaveNoSeparator(s[1..], sep);
    }
  }

  lemma {:induction false} JoinSplit(s: string, sep: char)
    ensures Join(Split(s, sep), sep) == s
  {
    if s != [] {
      var rest := Split(s[1..], sep);
      JoinSplit(s[1..], sep);
      if s[0] == sep {
        assert Split(s, sep)[1..] == rest;
      } else {
        var r := Split(s, sep);
        if |rest| == 1 {
          assert r == [[s[0]] + rest[0]];
        } else {
          assert r[1..] == rest[1..];
          assert Join(rest, sep) == rest[0] + [sep] + Join(rest[1..], sep);
        }
      }
    }
  }

  lemma {:induction false} SplitNoSeparator(a: string, sep: char)
    requires sep !in a
    ensures Split(a, sep) == [a]
  {
    if a != [] {
      SplitNoSeparator(a[1..], sep);
      assert a[0] != sep;
      assert [a[0]] + a[1..] == a;
    }
  }

  lemma {:induction false} SplitAfterPiece(a: string, b: string, sep: char)
    requires sep !in a
    ensures Split(a + [sep] + b, sep) == [a] + Split(b, sep)
  {
    if a == [] {
      assert a + [sep] + b == [sep] + b;
      assert ([sep] + b)[1..] == b;
    } else {
      assert (a + [sep] + b)[1..] == a[1..] + [sep] + b;
      assert (a + [sep] + b)[0] == a[0] != sep;
      SplitAfterPiece(a[1..], b, sep);
      assert [a[0]] + a[1..] == a;
    }
  }

  /** Splitting undoes joining, for at least one piece and pieces free of the separator. */
  lemma {:induction false} SplitJoin(pieces: seq<string>, sep: char)
    requires |pieces| >= 1
    requires forall k :: 0 <= k < |pieces| ==> sep !in pieces[k]
    ensures Split(Join(pieces, sep), sep) == pieces
  {
    if |pieces| == 1 {
      SplitNoSeparator(pieces[0], sep);
    } else {
      SplitJoin(pieces[1..], sep);
      SplitAfterPiece(pieces[0], Join(pieces[1..], sep), sep);
    }
  }

  /** `rfind(c)`: the position of the last `c` in `s`, if there is one. */
  function LastIndexOf(s: string, c: char): (r: Option<nat>)
    ensures r.Some? ==> r.value < |s| && s[r.value] == c && c !in s[r.value + 1..]
    ensures r.None? ==> c !in s
  {
    if s == [] then None
    else if s[|s| - 1] == c then Some(|s| - 1)
    else LastIndexOf(s[..|s| - 1], c)
  }
}
