/** Which numeric fields of a tar header hold which number, said without the parser. */
module TarNumber {
  import opened Prelude
  import opened TarField

  ghost predicate Blanks(s: seq<byte>) {
    forall i :: 0 <= i < |s| ==> IsBlank(s[i])
  }

  /** The rest of a field from its first NUL on, if it has one. */
  predicate Closes(rest: seq<byte>) {
    rest == [] || rest[0] == 0
  }

  /** The field is blank up to its first NUL. */
  ghost predicate IsEmpty(field: seq<byte>) {
    exists k :: 0 <= k <= |field| && Blanks(field[..k]) && Closes(field[k..])
  }

  /** A field taken apart: blanks, a sign, octal digits, anything else, and what follows the first NUL. */
  datatype Parts = Parts(
    lead: seq<byte>, sign: seq<byte>, digits: seq<byte>, junk: seq<byte>, rest: seq<byte>)

  ghost predicate IsField(p: Parts, field: seq<byte>) {
    && field == p.lead + (p.sign + (p.digits + (p.junk + p.rest)))
    && Blanks(p.lead) && (p.sign == [] || p.sign == [PLUS] || p.sign == [MINUS])
    && p.digits != [] && AllOctal(p.digits)
    && 0 !in p.junk && (p.junk == [] || !IsOctalDigit(p.junk[0]))
    && Closes(p.rest)
  }

  /** What a field means: zero if it is empty, and otherwise its first octal digits, which no minus may negate. */
  ghost predicate Means(field: seq<byte>, value: nat) {
    || (IsEmpty(field) && value == 0)
    || exists p :: IsField(p, field) && value == DigitsValue(p.digits) && (p.sign == [MINUS] ==> value == 0)
  }

  // ----- the parser accepts exactly these -----

  lemma {:induction false} CutsBefore(text: seq<byte>, rest: seq<byte>)
    requires 0 !in text && Closes(rest)
    ensures CutAtNul(text + rest) == text
  {
    if text == [] {
      assert text + rest == rest;
    } else {
      assert (text + rest)[1..] == text[1..] + rest;
      assert text == [text[0]] + text[1..];
      CutsBefore(text[1..], rest);
    }
  }

  lemma {:induction false} CutShape(field: seq<byte>)
    ensures var k := |CutAtNul(field)|;
      k <= |field| && field[..k] == CutAtNul(field) && 0 !in CutAtNul(field) && Closes(field[k..])
  {
    if field != [] && field[0] != 0 {
      CutShape(field[1..]);
      var k := |CutAtNul(field[1..])|;
      assert field[..k + 1] == [field[0]] + field[1..][..k];
      assert field[k + 1..] == field[1..][k..];
    }
  }

  lemma {:induction false} TrimStartShape(s: seq<byte>)
    ensures var k := |s| - |TrimStart(s)|;
      0 <= k && Blanks(s[..k]) && s[k..] == TrimStart(s) && (TrimStart(s) == [] || !IsBlank(TrimStart(s)[0]))
  {
    if s != [] && IsBlank(s[0]) {
      TrimStartShape(s[1..]);
      var k := |s[1..]| - |TrimStart(s[1..])|;
      assert s[..k + 1] == [s[0]] + s[1..][..k];
      assert s[k + 1..] == s[1..][k..];
    }
  }

  lemma {:induction false} TrimEndShape(s: seq<byte>)
    ensures var k := |TrimEnd(s)|;
      k <= |s| && s[..k] == TrimEnd(s) && Blanks(s[k..])
  {
    if s != [] && IsBlank(s[|s| - 1]) {
      var front := s[..|s| - 1];
      TrimEndShape(front);
      var k := |TrimEnd(front)|;
      assert s[..k] == front[..k];
      assert s[k..] == front[k..] + [s[|s| - 1]];
    }
  }

  lemma {:induction false} DigitsShape(s: seq<byte>)
    ensures var k := |LeadingDigits(s)|;
      k <= |s| && s[..k] == LeadingDigits(s) && AllOctal(LeadingDigits(s)) && (k < |s| ==> !IsOctalDigit(s[k]))
  {
    if s != [] && IsOctalDigit(s[0]) {
      DigitsShape(s[1..]);
      var k := |LeadingDigits(s[1..])|;
      assert s[..k + 1] == [s[0]] + s[1..][..k];
    }
  }

  lemma {:induction false} TrimsLead(lead: seq<byte>, body: seq<byte>)
    requires Blanks(lead) && (body == [] || !IsBlank(body[0]))
    ensures TrimStart(lead + body) == body
  {
    if lead == [] {
      assert lead + body == body;
    } else {
      assert (lead + body)[1..] == lead[1..] + body;
      TrimsLead(lead[1..], body);
    }
  }

  lemma {:induction false} TrimKeeps(front: seq<byte>, back: seq<byte>) returns (k: nat)
    requires front != [] && !IsBlank(front[|front| - 1])
    ensures k <= |back| && TrimEnd(front + back) == front + back[..k]
  {
    var s := front + back;
    TrimEndShape(s);
    KeepsLast(front, back);
    k := |TrimEnd(s)| - |front|;
    assert s[..|front| + k] == front + back[..k];
  }

  lemma {:induction false} KeepsLast(front: seq<byte>, back: seq<byte>)
    requires front != [] && !IsBlank(front[|front| - 1])
    ensures |TrimEnd(front + back)| >= |front|
    decreases |back|
  {
    if back == [] {
      assert front + back == front;
    } else {
      var s := front + back;
      assert s[..|s| - 1] == front + back[..|back| - 1];
      KeepsLast(front, back[..|back| - 1]);
    }
  }

  lemma {:induction false} LeadingOf(digits: seq<byte>, junk: seq<byte>)
    requires AllOctal(digits) && (junk == [] || !IsOctalDigit(junk[0]))
    ensures LeadingDigits(digits + junk) == digits
  {
    if digits == [] {
      assert digits + junk == junk;
    } else {
      assert (digits + junk)[1..] == digits[1..] + junk;
      assert digits == [digits[0]] + digits[1..];
      LeadingOf(digits[1..], junk);
    }
  }

  lemma {:induction false} ParsedEmpty(field: seq<byte>)
    requires IsEmpty(field)
    ensures ParseOctal(field) == Some(0)
  {
    var k :| 0 <= k <= |field| && Blanks(field[..k]) && Closes(field[k..]);
    assert field == field[..k] + field[k..];
    CutsBefore(field[..k], field[k..]);
    TrimsLead(field[..k], []);
    assert field[..k] + [] == field[..k];
  }

  lemma {:induction false} TextOf(field: seq<byte>, p: Parts) returns (left: seq<byte>)
    requires IsField(p, field)
    ensures TrimEnd(TrimStart(CutAtNul(field))) == p.sign + (p.digits + left)
    ensures left == [] || !IsOctalDigit(left[0])
  {
    var front := p.sign + p.digits;
    var body := front + p.junk;
    assert field == (p.lead + body) + p.rest;
    assert front[|front| - 1] == p.digits[|p.digits| - 1];
    assert body[0] == front[0] == if p.sign == [] then p.digits[0] else p.sign[0];
    hide CutAtNul, TrimStart, TrimEnd;
    CutsBefore(p.lead + body, p.rest);
    TrimsLead(p.lead, body);
    var k := TrimKeeps(front, p.junk);
    left := p.junk[..k];
    assert front + left == p.sign + (p.digits + left);
  }

  lemma {:induction false} ParsedText(sign: seq<byte>, digits: seq<byte>, left: seq<byte>)
    requires sign == [] || sign == [PLUS] || sign == [MINUS]
    requires digits != [] && AllOctal(digits) && (left == [] || !IsOctalDigit(left[0]))
    ensures ParseInt8(sign + (digits + left))
      == if sign == [MINUS] && DigitsValue(digits) > 0 then None else Some(DigitsValue(digits))
  {
    hide LeadingDigits, DigitsValue;
    LeadingOf(digits, left);
    var text := sign + (digits + left);
    assert IsOctalDigit(digits[0]);
    assert text[|sign|..] == digits + left;
    assert text[0] == if sign == [] then digits[0] else sign[0];
  }

  lemma {:induction false} ParsedParts(field: seq<byte>, p: Parts)
    requires IsField(p, field)
    ensures ParseOctal(field)
      == if p.sign == [MINUS] && DigitsValue(p.digits) > 0 then None else Some(DigitsValue(p.digits))
  {
    var left := TextOf(field, p);
    ParsedText(p.sign, p.digits, left);
    hide ParseInt8, DigitsValue, TrimEnd, TrimStart, CutAtNul;
  }

  /** A field is its trimmed text between blanks, and what follows its first NUL. */
  lemma {:induction false} TrimmedText(field: seq<byte>)
    returns (lead: seq<byte>, text: seq<byte>, trail: seq<byte>, rest: seq<byte>)
    ensures text == TrimEnd(TrimStart(CutAtNul(field)))
    ensures field == lead + (text + (trail + rest)) && Blanks(lead) && Blanks(trail) && 0 !in text && Closes(rest)
    ensures text == [] ==> IsEmpty(field)
  {
    var cut := CutAtNul(field);
    var body := TrimStart(cut);
    text := TrimEnd(body);
    CutShape(field);
    TrimStartShape(cut);
    TrimEndShape(body);
    hide CutAtNul, TrimStart, TrimEnd;
    lead, trail, rest := cut[..|cut| - |body|], body[|text|..], field[|cut|..];
    assert body == text + trail && cut == lead + body && field == cut + rest;
    assert field == lead + (text + (trail + rest));
    assert forall i :: 0 <= i < |text| ==> text[i] == cut[|lead| + i];
    if text == [] {
      assert body == trail;
      NothingLeft(body);
      assert field[..|cut|] == lead && field[|cut|..] == rest;
    }
  }

  lemma {:induction false} NothingLeft(body: seq<byte>)
    requires Blanks(body) && (body == [] || !IsBlank(body[0]))
    ensures body == []
  {
  }

  lemma {:induction false} NumberParts(text: seq<byte>) returns (sign: seq<byte>, digits: seq<byte>, left: seq<byte>)
    requires text != [] && ParseInt8(text).Some?
    ensures text == sign + (digits + left) && (sign == [] || sign == [PLUS] || sign == [MINUS])
    ensures digits != [] && AllOctal(digits) && (left == [] || !IsOctalDigit(left[0]))
  {
    hide DigitsValue, LeadingDigits;
    sign := if text[0] == MINUS || text[0] == PLUS then [text[0]] else [];
    var unsigned := text[|sign|..];
    digits := LeadingDigits(unsigned);
    DigitsShape(unsigned);
    left := unsigned[|digits|..];
  }

  /** Taking apart a field that parses. */
  lemma {:induction false} PartsOf(field: seq<byte>) returns (p: Parts)
    requires ParseOctal(field).Some? && !IsEmpty(field)
    ensures IsField(p, field)
  {
    hide ParseInt8, TrimEnd, TrimStart, CutAtNul, IsEmpty;
    var lead, text, trail, rest := TrimmedText(field);
    var sign, digits, left := NumberParts(text);
    var junk := left + trail;
    p := Parts(lead, sign, digits, junk, rest);
    assert text + (trail + rest) == sign + (digits + (junk + rest));
    assert forall i :: 0 <= i < |left| ==> left[i] in text by {
      assert text[|text| - |left|..] == left;
    }
  }

  /** The parser gives a number exactly for the fields that mean it, and refuses those that mean none. */
  lemma {:induction false} ParsesExactly(field: seq<byte>, value: nat)
    ensures ParseOctal(field) == Some(value) <==> Means(field, value)
  {
    hide ParseOctal, IsField, IsEmpty, DigitsValue;
    if IsEmpty(field) {
      ParsedEmpty(field);
    }
    forall p | IsField(p, field)
      ensures ParseOctal(field)
        == if p.sign == [MINUS] && DigitsValue(p.digits) > 0 then None else Some(DigitsValue(p.digits))
    {
      ParsedParts(field, p);
    }
    if ParseOctal(field) == Some(value) && !IsEmpty(field) {
      var p := PartsOf(field);
    }
  }
}
