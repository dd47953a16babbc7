/** Text and octal fields of a tar header. */
module TarField {
  import opened Prelude
  import opened Bytes

  const ZERO: byte := 48
  const SPACE: byte := 32
  const PLUS: byte := 43
  const MINUS: byte := 45

  // ----- NUL-terminated text -----

  function CutAtNul(s: seq<byte>): seq<byte> {
    if s == [] || s[0] == 0 then [] else [s[0]] + CutAtNul(s[1..])
  }

  function Padded(text: seq<byte>, width: nat): (s: seq<byte>)
    requires |text| <= width
    ensures |s| == width
  {
    text + Zeros(width - |text|)
  }

  /** Padding is undone by cutting exactly when the text holds no NUL. */
  lemma {:induction false} CutPadded(text: seq<byte>, width: nat)
    requires |text| <= width
    ensures |CutAtNul(Padded(text, width))| <= |text|
    ensures CutAtNul(Padded(text, width)) == text <==> 0 !in text
    ensures |CutAtNul(Padded(text, width))| == |text| <==> 0 !in text
    ensures text != [] && text[0] == 0 ==> CutAtNul(Padded(text, width)) == []
    ensures 0 !in CutAtNul(Padded(text, width))
  {
    var s := Padded(text, width);
    if text != [] && text[0] != 0 {
      assert s[1..] == Padded(text[1..], width - 1);
      CutPadded(text[1..], width - 1);
      assert text == [text[0]] + text[1..];
    }
  }

  lemma {:induction false} CutBeforeNul(text: seq<byte>, tail: seq<byte>)
    requires 0 !in text
    ensures CutAtNul(text + [0] + tail) == text
  {
    var s := text + [0] + tail;
    if text != [] {
      assert s[1..] == text[1..] + [0] + tail;
      CutBeforeNul(text[1..], tail);
    }
  }

  // ----- octal numbers -----

  /** `value.toString(8)`. */
  function ToOctal(value: nat): (s: seq<byte>)
    ensures s != []
  {
    if value < 8 then [ZERO + value] else ToOctal(value / 8) + [ZERO + value % 8]
  }

  function PadStart(s: seq<byte>, width: nat): seq<byte> {
    if |s| >= width then s else seq(width - |s|, _ => ZERO) + s
  }

  /** The last `count` bytes, as `slice(-count)` takes them. */
  function LastBytes(s: seq<byte>, count: nat): seq<byte> {
    if count == 0 || |s| <= count then s else s[|s| - count..]
  }

  /** The digits `writeTarOctal` writes before the closing NUL. */
  function OctalDigits(value: nat, width: nat): seq<byte> {
    LastBytes(PadStart(ToOctal(value), width), width)
  }

  /** The `width` low octal digits of a number. */
  function FixedOctal(value: nat, width: nat): (s: seq<byte>)
    ensures |s| == width
  {
    if width == 0 then [] else FixedOctal(value / 8, width - 1) + [ZERO + value % 8]
  }

  function Pow8(n: nat): nat {
    if n == 0 then 1 else 8 * Pow8(n - 1)
  }

  /** What is left of a number in `width` octal digits. */
  function LowDigits(value: nat, width: nat): nat {
    if width == 0 then 0 else 8 * LowDigits(value / 8, width - 1) + value % 8
  }

  lemma {:induction false} LowDigitsFit(value: nat, width: nat)
    ensures LowDigits(value, width) < Pow8(width)
    ensures value < Pow8(width) <==> LowDigits(value, width) == value
  {
    if width != 0 {
      LowDigitsFit(value / 8, width - 1);
    }
  }

  lemma {:induction false} ZeroDigits(width: nat)
    ensures FixedOctal(0, width) == seq(width, _ => ZERO)
  {
    if width != 0 {
      ZeroDigits(width - 1);
    }
  }

  lemma {:induction false} PadSnoc(s: seq<byte>, last: byte, width: nat)
    requires width > 0
    ensures PadStart(s + [last], width) == PadStart(s, width - 1) + [last]
  {
  }

  lemma {:induction false} LastBytesSnoc(s: seq<byte>, last: byte, width: nat)
    requires 1 < width <= |s| + 1
    ensures LastBytes(s + [last], width) == LastBytes(s, width - 1) + [last]
  {
  }

  lemma {:induction false} PadReaches(s: seq<byte>, width: nat)
    ensures |PadStart(s, width)| >= width
  {
  }

  lemma {:induction false} FixedUnfold(value: nat, width: nat)
    requires width > 0
    ensures FixedOctal(value, width) == FixedOctal(value / 8, width - 1) + [ZERO + value % 8]
  {
  }

  lemma {:induction false} OneDigit(value: nat)
    ensures OctalDigits(value, 1) == FixedOctal(value, 1)
  {
    var last: byte := ZERO + value % 8;
    FixedUnfold(value, 1);
    assert FixedOctal(value / 8, 0) + [last] == [last];
    hide FixedOctal;
    if value >= 8 {
      assert ToOctal(value)[|ToOctal(value)| - 1..] == [last];
    }
  }

  lemma {:induction false} OctalDigitsFixed(value: nat, width: nat)
    requires width > 0
    ensures OctalDigits(value, width) == FixedOctal(value, width)
    decreases width
  {
    var last: byte := ZERO + value % 8;
    if width == 1 {
      OneDigit(value);
    } else if value < 8 {
      ZeroDigits(width - 1);
      hide FixedOctal;
      FixedUnfold(value, width);
    } else {
      hide PadStart, LastBytes, FixedOctal;
      FixedUnfold(value, width);
      OctalDigitsFixed(value / 8, width - 1);
      PadSnoc(ToOctal(value / 8), last, width);
      PadReaches(ToOctal(value / 8), width - 1);
      LastBytesSnoc(PadStart(ToOctal(value / 8), width - 1), last, width);
    }
  }

  predicate IsBlank(b: byte) {
    9 <= b <= 13 || b == SPACE
  }

  function TrimStart(s: seq<byte>): seq<byte> {
    if s != [] && IsBlank(s[0]) then TrimStart(s[1..]) else s
  }

  function TrimEnd(s: seq<byte>): seq<byte> {
    if s != [] && IsBlank(s[|s| - 1]) then TrimEnd(s[..|s| - 1]) else s
  }

  predicate IsOctalDigit(b: byte) {
    ZERO <= b < ZERO + 8
  }

  function LeadingDigits(s: seq<byte>): seq<byte> {
    if s != [] && IsOctalDigit(s[0]) then [s[0]] + LeadingDigits(s[1..]) else []
  }

  function DigitsValue(digits: seq<byte>): nat {
    if digits == [] then 0
    else 8 * DigitsValue(digits[..|digits| - 1]) + DigitValue(digits[|digits| - 1])
  }

  function DigitValue(b: byte): nat {
    if b >= ZERO then b - ZERO else 0
  }

  /** `Number.parseInt(text, 8)` followed by the finite and sign test; `None` is the safety error. */
  function ParseInt8(text: seq<byte>): Option<nat> {
    var negative := text != [] && text[0] == MINUS;
    var unsigned := if text != [] && (text[0] == MINUS || text[0] == PLUS) then text[1..] else text;
    var digits := LeadingDigits(unsigned);
    if digits == [] then None
    else if negative && DigitsValue(digits) > 0 then None
    else Some(DigitsValue(digits))
  }

  /** The reader of a numeric field. */
  function ParseOctal(field: seq<byte>): Option<nat> {
    var text := TrimEnd(TrimStart(CutAtNul(field)));
    if text == [] then Some(0) else ParseInt8(text)
  }

  ghost predicate AllOctal(s: seq<byte>) {
    forall i :: 0 <= i < |s| ==> IsOctalDigit(s[i])
  }

  lemma {:induction false} FixedOctalDigits(value: nat, width: nat)
    ensures AllOctal(FixedOctal(value, width))
    ensures DigitsValue(FixedOctal(value, width)) == LowDigits(value, width)
  {
    if width != 0 {
      FixedOctalDigits(value / 8, width - 1);
      var s := FixedOctal(value, width);
      assert s[..|s| - 1] == FixedOctal(value / 8, width - 1);
    }
  }

  lemma {:induction false} LeadingAll(s: seq<byte>)
    requires AllOctal(s)
    ensures LeadingDigits(s) == s
  {
    if s != [] {
      LeadingAll(s[1..]);
    }
  }

  /** A field printed with `width` digits and a NUL reads back as the number's low digits. */
  lemma {:induction false} ParseFixed(value: nat, width: nat, tail: seq<byte>)
    requires width > 0
    ensures ParseOctal(FixedOctal(value, width) + [0] + tail) == Some(LowDigits(value, width))
  {
    var digits := FixedOctal(value, width);
    FixedOctalDigits(value, width);
    CutBeforeNul(digits, tail);
    LeadingAll(digits);
    assert IsOctalDigit(digits[0]) && IsOctalDigit(digits[|digits| - 1]);
  }

  function OctalField(value: nat, width: nat): (s: seq<byte>)
    requires width > 1
    ensures |s| == width
  {
    FixedOctal(value, width - 1) + [0]
  }

  /** Octal fields print and parse back exactly the numbers below 8^(width-1). */
  lemma {:induction false} OctalFieldRoundTrip(value: nat, width: nat)
    requires width > 1
    ensures ParseOctal(OctalDigits(value, width - 1) + [0]) == Some(value) <==> value < Pow8(width - 1)
    ensures ParseOctal(OctalField(value, width)) == Some(LowDigits(value, width - 1))
  {
    OctalDigitsFixed(value, width - 1);
    ParseFixed(value, width - 1, []);
    assert OctalField(value, width) == FixedOctal(value, width - 1) + [0] + [];
    LowDigitsFit(value, width - 1);
  }
}
