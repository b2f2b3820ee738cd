/**
 * Rendering of a payload value for an annotation, selected by the decoder's
 * `format` option: ascii (printable characters as themselves, others as a
 * bracketed hex code), dec, hex, oct or bin. ParseValue is the reading back
 * of each rendering; the round trip is proved for every value and mode.
 */
module ValueFormat {
  import opened Wrappers

  /** Upper-case digit character of value `d`. */
  function DigitChar(d: nat): (c: char)
    requires d < 16
  {
    if d < 10 then ('0' as int + d) as char else ('A' as int + d - 10) as char
  }

  /** Value of a digit character (anything else reads as 16, which is no digit). */
  function DigitValue(c: char): (d: nat)
    ensures d <= 16
  {
    if '0' <= c <= '9' then c as int - '0' as int
    else if 'A' <= c <= 'F' then c as int - 'A' as int + 10
    else 16
  }

  lemma DigitRoundTrip(d: nat)
    requires d < 16
    ensures DigitValue(DigitChar(d)) == d
  {
  }

  predicate IsDigits(s: string, radix: nat)
  {
    forall i :: 0 <= i < |s| ==> DigitValue(s[i]) < radix
  }

  /** Digits of `v` in `radix`, most significant first, without leading zeros. */
  function ToRadix(v: nat, radix: nat): (s: string)
    requires 2 <= radix <= 16
    ensures 1 <= |s|
    decreases v
  {
    if v < radix then [DigitChar(v)]
    else ToRadix(v / radix, radix) + [DigitChar(v % radix)]
  }

  /** Value of a digit string in `radix`, most significant digit first. */
  function FromRadix(s: string, radix: nat): nat
  {
    if s == [] then 0
    else FromRadix(s[..|s| - 1], radix) * radix + DigitValue(s[|s| - 1])
  }

  /** Left-pads with '0' to a width of at least two (Python's `{:02…}`). */
  function ZeroPad2(s: string): (r: string)
  {
    if |s| < 2 then seq(2 - |s|, _ => '0') + s else s
  }

  /**
   * The digit string has no leading zero: it starts with '0' only for the
   * value 0, and it has one digit exactly when the value is below the radix.
   */
  lemma {:induction false} ToRadixLeading(v: nat, radix: nat)
    requires 2 <= radix <= 16
    ensures ToRadix(v, radix)[0] == '0' <==> v == 0
    ensures |ToRadix(v, radix)| == 1 <==> v < radix
    decreases v
  {
    if v >= radix {
      DivStep(v, radix);
      ToRadixLeading(v / radix, radix);
      assert ToRadix(v, radix)[0] == ToRadix(v / radix, radix)[0];
    }
  }

  const Modes: set<string> := {"ascii", "dec", "hex", "oct", "bin"}

  function Radix(mode: string): (r: nat)
    requires mode in Modes - {"ascii"}
    ensures 2 <= r <= 16
  {
    if mode == "dec" then 10 else if mode == "hex" then 16 else if mode == "oct" then 8 else 2
  }

  /**
   * The annotation text of value `v` in format `mode`; None for a mode that is
   * none of the five.
   */
  function FormatValue(mode: string, v: nat): (r: Option<string>)
    ensures r.None? <==> mode !in Modes
    ensures mode == "ascii" && 32 <= v <= 126 ==> r == Some([v as char])
    ensures mode == "ascii" && !(32 <= v <= 126) ==> 4 <= |r.value| && (|r.value| == 4 || r.value[1] != '0')
    ensures mode in {"hex", "oct", "bin"} ==> 2 <= |r.value| && (|r.value| == 2 || r.value[0] != '0')
    ensures mode == "dec" ==> 1 <= |r.value| && (r.value == "0" || r.value[0] != '0')
  {
    ToRadixLeading(v, 16);
    ToRadixLeading(v, 10);
    ToRadixLeading(v, 8);
    ToRadixLeading(v, 2);
    if mode == "ascii" then
      if 32 <= v <= 126 then Some([v as char]) else Some("[" + ZeroPad2(ToRadix(v, 16)) + "]")
    else if mode == "dec" then Some(ToRadix(v, 10))
    else if mode == "hex" then Some(ZeroPad2(ToRadix(v, 16)))
    else if mode == "oct" then Some(ZeroPad2(ToRadix(v, 8)))
    else if mode == "bin" then Some(ZeroPad2(ToRadix(v, 2)))
    else None
  }

  /** Reading an annotation text back to the value it shows. */
  function ParseValue(mode: string, s: string): Option<nat>
  {
    if mode == "ascii" then
      if |s| == 1 then Some(s[0] as int)
      else if 2 < |s| && s[0] == '[' && s[|s| - 1] == ']' && IsDigits(s[1..|s| - 1], 16) then
        Some(FromRadix(s[1..|s| - 1], 16))
      else None
    else if mode in Modes && IsDigits(s, Radix(mode)) then Some(FromRadix(s, Radix(mode)))
    else None
  }

  /** Appending a digit: the digit set is kept and the value shifts by one place. */
  lemma AppendDigit(p: string, c: char, radix: nat)
    requires 2 <= radix <= 16 && IsDigits(p, radix) && DigitValue(c) < radix
    ensures IsDigits(p + [c], radix)
    ensures FromRadix(p + [c], radix) == FromRadix(p, radix) * radix + DigitValue(c)
  {
    var s := p + [c];
    assert s[..|s| - 1] == p;
    assert forall i :: 0 <= i < |s| ==> s[i] == if i < |p| then p[i] else c;
  }

  lemma {:induction false} ToRadixDigits(v: nat, radix: nat)
    requires 2 <= radix <= 16
    ensures IsDigits(ToRadix(v, radix), radix)
    ensures FromRadix(ToRadix(v, radix), radix) == v
    decreases v
  {
    if v < radix {
      DigitRoundTrip(v);
      assert FromRadix([DigitChar(v)], radix) == FromRadix([], radix) * radix + v;
    } else {
      var q, m := v / radix, v % radix;
      DivStep(v, radix);
      ToRadixDigits(q, radix);
      DigitRoundTrip(m);
      AppendDigit(ToRadix(q, radix), DigitChar(m), radix);
    }
  }

  /** Leading zeros change neither the digit set nor the value. */
  lemma {:induction false} LeadingZero(s: string, radix: nat)
    requires 2 <= radix <= 16 && IsDigits(s, radix)
    ensures IsDigits("0" + s, radix)
    ensures FromRadix("0" + s, radix) == FromRadix(s, radix)
    decreases |s|
  {
    if s != [] {
      var t := "0" + s;
      assert t[..|t| - 1] == "0" + s[..|s| - 1];
      LeadingZero(s[..|s| - 1], radix);
    }
  }

  lemma ZeroPadValue(s: string, radix: nat)
    requires 2 <= radix <= 16 && 1 <= |s| && IsDigits(s, radix)
    ensures IsDigits(ZeroPad2(s), radix)
    ensures FromRadix(ZeroPad2(s), radix) == FromRadix(s, radix)
    ensures |ZeroPad2(s)| == if |s| < 2 then 2 else |s|
  {
    if |s| < 2 {
      assert ZeroPad2(s) == "0" + s;
      LeadingZero(s, radix);
    }
  }

  /** The division facts the digit recursion rests on. */
  lemma DivStep(v: nat, radix: nat)
    requires 2 <= radix <= v
    ensures v == (v / radix) * radix + v % radix
    ensures 0 <= v % radix < radix
    ensures v / radix < v
  {
  }

  lemma {:induction false} MulMonotone(a: nat, b: nat, c: nat)
    requires a <= b
    ensures a * c <= b * c
    decreases c
  {
    if c > 0 {
      MulMonotone(a, b, c - 1);
      assert a * c == a * (c - 1) + a;
      assert b * c == b * (c - 1) + b;
    }
  }

  lemma DivBelowRadix(v: nat, radix: nat)
    requires 2 <= radix
    ensures v / radix < radix <==> v < radix * radix
  {
    var q, m := v / radix, v % radix;
    assert v == q * radix + m && m < radix;
    if q < radix {
      MulMonotone(q, radix - 1, radix);
      assert (radix - 1) * radix == radix * radix - radix;
    } else {
      MulMonotone(radix, q, radix);
    }
  }

  /** `v` has exactly two digits in `radix` when radix <= v < radix * radix. */
  lemma {:induction false} ToRadixLength(v: nat, radix: nat)
    requires 2 <= radix <= 16
    ensures |ToRadix(v, radix)| == 1 <==> v < radix
    ensures |ToRadix(v, radix)| <= 2 <==> v < radix * radix
  {
    if v >= radix {
      var q := v / radix;
      DivStep(v, radix);
      ToRadixLength(q, radix);
      assert |ToRadix(v, radix)| == |ToRadix(q, radix)| + 1;
      assert |ToRadix(q, radix)| == 1 <==> q < radix;
      DivBelowRadix(v, radix);
    } else {
      assert v < radix * radix;
    }
  }

  /** A known mode's rendering of any value reads back as that value. */
  lemma FormatRoundTrip(mode: string, v: nat)
    requires mode in Modes
    ensures ParseValue(mode, FormatValue(mode, v).value) == Some(v)
  {
    if mode == "ascii" {
      if !(32 <= v <= 126) {
        ToRadixDigits(v, 16);
        ZeroPadValue(ToRadix(v, 16), 16);
        var s := FormatValue(mode, v).value;
        assert s[1..|s| - 1] == ZeroPad2(ToRadix(v, 16));
      }
    } else {
      var r := Radix(mode);
      ToRadixDigits(v, r);
      if mode != "dec" {
        ZeroPadValue(ToRadix(v, r), r);
      }
    }
  }

  /**
   * For a value below 256 the hex rendering, and the escape of a non-printable
   * value in ascii mode, is exactly two upper-case hex digits.
   */
  lemma ByteHexWidth(v: nat)
    requires v < 0x100
    ensures |FormatValue("hex", v).value| == 2
    ensures !(32 <= v <= 126) ==> |FormatValue("ascii", v).value| == 4
  {
    ToRadixLength(v, 16);
  }
}
