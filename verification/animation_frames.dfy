/**
 * The frame names of the animation sample: each saved viewport image is named "frame"
 * followed by its counter, zero-filled to four characters by `pad`.
 */
module AnimationFrames {
  import opened Seqs
  import opened Text

  /** `pad(number, length)`: the numeral of `number` printed right-aligned in a field of
      `length` characters filled with '0' (`std::setw` and `std::setfill`), so the fill goes
      before a minus sign; a numeral at least as wide as the field is printed as it is. */
  function Pad(number: int, length: int): string
  {
    var text := IntToString(number);
    if |text| < length then Repeat('0', length - |text|) + text else text
  }

  /** For a non-negative number the result is as long as the field or the numeral, whichever
      is longer; it is all digits and reads back as the number. */
  lemma PadNonNegative(number: nat, length: int)
    ensures |Pad(number, length)| == if length > |NatToString(number)| then length else |NatToString(number)|
    ensures AllDigits(Pad(number, length))
    ensures ParseDecimal(Pad(number, length)) == number
  {
    var z := PadIsZeroFilled(number, length);
    ParseNatToString(number);
    ZeroFilled(z, NatToString(number));
  }

  lemma PadIsZeroFilled(number: nat, length: int) returns (z: nat)
    ensures z == if length > |NatToString(number)| then length - |NatToString(number)| else 0
    ensures Pad(number, length) == Repeat('0', z) + NatToString(number)
  {
    var text := NatToString(number);
    assert IntToString(number) == text;
    if |text| < length {
      z := length - |text|;
    } else {
      z := 0;
      assert Repeat('0', 0) + text == text;
    }
  }

  lemma ZeroFilled(k: nat, text: string)
    requires AllDigits(text)
    ensures |Repeat('0', k) + text| == k + |text|
    ensures AllDigits(Repeat('0', k) + text)
    ensures ParseDecimal(Repeat('0', k) + text) == ParseDecimal(text)
  {
    ParseLeadingZeros(k, text);
  }

  /** For a negative number the zero fill goes before the sign: the result is as long as the
      field or as the sign and the magnitude's digits, whichever is longer; it is zeros, then
      '-', then the digits of the magnitude. So in a field wider than the numeral the sign is
      not the first character. */
  lemma PadNegative(number: int, length: int)
    requires number < 0
    ensures var digits := NatToString(-number);
      var p := Pad(number, length);
      && |p| == (if length > 1 + |digits| then length else 1 + |digits|)
      && (forall k :: 0 <= k < |p| - 1 - |digits| ==> p[k] == '0')
      && p[|p| - 1 - |digits|] == '-'
      && p[|p| - |digits|..] == digits
      && ParseDecimal(p[|p| - |digits|..]) == -number
      && (length > 1 + |digits| ==> p[0] == '0' && p[0] != '-')
  {
    var digits := NatToString(-number);
    var text := IntToString(number);
    assert text == "-" + digits;
    var p := Pad(number, length);
    var z := if length > 1 + |digits| then length - 1 - |digits| else 0;
    if |text| < length {
      assert p == Repeat('0', z) + text;
    } else {
      assert p == Repeat('0', 0) + text;
    }
    assert p == Repeat('0', z) + ("-" + digits);
    assert p[z + 1..] == digits;
    ParseNatToString(-number);
  }

  lemma PadMinusFive()
    ensures Pad(-5, 4) == "00-5"
  {
    assert NatToString(5) == "5";
    assert Repeat('0', 2) == "00";
  }

  /** The name of the `cnt`-th frame in the chosen folder. */
  function FrameName(folder: string, cnt: nat): string
  {
    folder + "/" + "frame" + Pad(cnt, 4)
  }

  /** The saving loop: one image per step, named by the counter, which starts at 0 and grows
      by one per image. How many steps run depends on floating-point parameter values and is
      given here as `frames`. */
  method FrameNames(folder: string, frames: nat) returns (names: seq<string>)
    ensures |names| == frames
    ensures forall k :: 0 <= k < frames ==> names[k] == FrameName(folder, k)
  {
    names := [];
    var cnt := 0;
    while cnt < frames
      invariant cnt <= frames
      invariant |names| == cnt
      invariant forall k :: 0 <= k < cnt ==> names[k] == FrameName(folder, k)
    {
      var filename := FrameName(folder, cnt);
      AppendFrame(folder, names, filename);
      names := names + [filename];
      cnt := cnt + 1;
    }
  }

  lemma AppendFrame(folder: string, names: seq<string>, filename: string)
    requires forall k :: 0 <= k < |names| ==> names[k] == FrameName(folder, k)
    requires filename == FrameName(folder, |names|)
    ensures forall k :: 0 <= k < |names| + 1 ==> (names + [filename])[k] == FrameName(folder, k)
  {
  }

  /** The names of a run are distinct, and up to ten thousand frames they sort in the order
      the frames were saved. */
  lemma FrameListOrdered(folder: string, names: seq<string>)
    requires forall k :: 0 <= k < |names| ==> names[k] == FrameName(folder, k)
    ensures forall i, j :: 0 <= i < j < |names| ==> names[i] != names[j]
    ensures |names| <= 10000 ==> forall i, j :: 0 <= i < j < |names| ==> LexLess(names[i], names[j])
  {
    forall i, j | 0 <= i < j < |names|
      ensures names[i] != names[j]
      ensures |names| <= 10000 ==> LexLess(names[i], names[j])
    {
      FrameNamesDistinct(folder, i, j);
      if |names| <= 10000 {
        FrameOrder(folder, i, j);
      }
    }
  }

  /** Different counters name different frames. */
  lemma FrameNamesDistinct(folder: string, a: nat, b: nat)
    ensures FrameName(folder, a) == FrameName(folder, b) <==> a == b
  {
    if FrameName(folder, a) == FrameName(folder, b) {
      var prefix := folder + "/" + "frame";
      PadNonNegative(a, 4);
      PadNonNegative(b, 4);
      assert Pad(a, 4) == FrameName(folder, a)[|prefix|..];
      assert Pad(b, 4) == FrameName(folder, b)[|prefix|..];
    }
  }

  lemma {:induction false} NumeralLength(n: nat, k: nat)
    requires k >= 1 && n < Pow10(k)
    ensures |NatToString(n)| <= k
    decreases n
  {
    if n >= 10 {
      assert Pow10(1) == 10;
      assert k >= 2;
      assert n / 10 < Pow10(k - 1);
      NumeralLength(n / 10, k - 1);
    }
  }

  /** Up to frame 9999 the names sort in the order the frames were saved. */
  lemma FrameOrder(folder: string, a: nat, b: nat)
    requires a < 10000 && b < 10000
    ensures LexLess(FrameName(folder, a), FrameName(folder, b)) <==> a < b
  {
    assert Pow10(4) == 10000;
    NumeralLength(a, 4);
    NumeralLength(b, 4);
    PadNonNegative(a, 4);
    PadNonNegative(b, 4);
    LexLessDigits(Pad(a, 4), Pad(b, 4));
    LexLessCommonPrefix(folder + "/" + "frame", Pad(a, 4), Pad(b, 4));
  }
}
