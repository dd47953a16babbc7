/** The canonical JSON printer that fingerprints idempotent requests. */
module StableJson {
  import opened Sorting

  /**
   * A JavaScript value as the printer sees it. A finite number is carried by the text it prints
   * as; `NonFinite` stands for the numbers that print as `null`. Members come in insertion order.
   */
  datatype Json =
    | Undefined
    | Null
    | Boolean(b: bool)
    | Number(text: string)
    | NonFinite
    | Text(s: string)
    | Array(items: seq<Json>)
    | Object(members: seq<Member>)

  datatype Member = Member(key: string, value: Json)

  /** `before` is the locale's order of keys. */
  type KeyOrder = (string, string) -> bool

  // ----- strings -----

  function HexDigit(n: int): char
    requires 0 <= n < 16
  {
    if n < 10 then '0' + n as char else 'a' + (n - 10) as char
  }

  function Escape(c: char): string {
    if c == '"' then "\\\""
    else if c == '\\' then "\\\\"
    else if c as int == 8 then "\\b"
    else if c as int == 12 then "\\f"
    else if c == '\n' then "\\n"
    else if c == '\r' then "\\r"
    else if c == '\t' then "\\t"
    else if c < ' ' then "\\u00" + [HexDigit(c as int / 16), HexDigit(c as int % 16)]
    else [c]
  }

  function EscapeAll(s: string): string {
    if s == "" then "" else Escape(s[0]) + EscapeAll(s[1..])
  }

  function Quote(s: string): string {
    "\"" + EscapeAll(s) + "\""
  }

  // ----- the printer -----

  function Defined(members: seq<Member>): seq<Member> {
    if members == [] then []
    else if members[0].value.Undefined? then Defined(members[1..])
    else [members[0]] + Defined(members[1..])
  }

  function ByKey(before: KeyOrder): (Member, Member) -> bool {
    (x: Member, y: Member) => before(x.key, y.key)
  }

  function SortedMembers(before: KeyOrder, members: seq<Member>): (sorted: seq<Member>)
    ensures forall m :: m in sorted <==> m in members && !m.value.Undefined?
  {
    DefinedMembers(members);
    SortMembers(ByKey(before), Defined(members));
    Sort(ByKey(before), Defined(members))
  }

  lemma {:induction false} DefinedMembers(members: seq<Member>)
    ensures forall m :: m in Defined(members) <==> m in members && !m.value.Undefined?
  {
    if members != [] {
      DefinedMembers(members[1..]);
      assert members == [members[0]] + members[1..];
    }
  }

  /** Joining an array turns an undefined item into the empty string, so that is what it prints as here. */
  function Print(before: KeyOrder, v: Json): string
    decreases v, 0
  {
    match v
    case Undefined => ""
    case Null => "null"
    case Boolean(b) => if b then "true" else "false"
    case Number(text) => text
    case NonFinite => "null"
    case Text(s) => Quote(s)
    case Array(items) => "[" + PrintItems(before, v, items) + "]"
    case Object(members) =>
      var sorted := SortedMembers(before, members);
      assert forall i :: 0 <= i < |sorted| ==> sorted[i] in sorted;
      "{" + PrintMembers(before, v, sorted) + "}"
  }

  function PrintItems(before: KeyOrder, context: Json, items: seq<Json>): string
    requires forall i :: 0 <= i < |items| ==> items[i] < context
    decreases context, 0, |items|
  {
    if items == [] then ""
    else if |items| == 1 then Print(before, items[0])
    else Print(before, items[0]) + "," + PrintItems(before, context, items[1..])
  }

  function PrintMembers(before: KeyOrder, context: Json, members: seq<Member>): string
    requires forall i :: 0 <= i < |members| ==> members[i].value < context
    decreases context, 0, |members|
  {
    if members == [] then ""
    else
      var first := Quote(members[0].key) + ":" + Print(before, members[0].value);
      if |members| == 1 then first else first + "," + PrintMembers(before, context, members[1..])
  }

  // ----- what a value means, without printing or sorting -----

  datatype Meaning =
    | MUndefined
    | MNull
    | MBoolean(b: bool)
    | MNumber(text: string)
    | MText(s: string)
    | MArray(items: seq<Meaning>)
    | MObject(members: map<string, Meaning>)

  /**
   * Objects are maps from keys to meanings without the undefined entries. An array holding just
   * one undefined means the empty array, because that is what it prints as.
   */
  function Mean(v: Json): Meaning
    decreases v, 0
  {
    match v
    case Undefined => MUndefined
    case Null => MNull
    case Boolean(b) => MBoolean(b)
    case Number(text) => MNumber(text)
    case NonFinite => MNull
    case Text(s) => MText(s)
    case Array(items) => MArray(if items == [Undefined] then [] else MeanItems(v, items))
    case Object(members) => MObject(MeanMembers(v, members))
  }

  function MeanItems(context: Json, items: seq<Json>): (ms: seq<Meaning>)
    requires forall i :: 0 <= i < |items| ==> items[i] < context
    ensures |ms| == |items| && forall i :: 0 <= i < |items| ==> ms[i] == Mean(items[i])
    decreases context, 0, |items|
  {
    if items == [] then [] else [Mean(items[0])] + MeanItems(context, items[1..])
  }

  function MeanMembers(context: Json, members: seq<Member>): map<string, Meaning>
    requires forall i :: 0 <= i < |members| ==> members[i].value < context
    decreases context, 0, |members|
  {
    if members == [] then map[]
    else
      var rest := MeanMembers(context, members[1..]);
      if members[0].value.Undefined? then rest else rest[members[0].key := Mean(members[0].value)]
  }

  // ----- values that can occur -----

  predicate NumeralChar(c: char) {
    '0' <= c <= '9' || c == '-' || c == '+' || c == '.' || c == 'e'
  }

  predicate IsNumeral(text: string) {
    text != "" && ('0' <= text[0] <= '9' || text[0] == '-') && forall i :: 0 <= i < |text| ==> NumeralChar(text[i])
  }

  ghost predicate DistinctKeys(members: seq<Member>) {
    forall i, j :: 0 <= i < j < |members| ==> members[i].key != members[j].key
  }

  ghost predicate WellFormed(v: Json)
    decreases v
  {
    match v
    case Number(text) => IsNumeral(text)
    case Array(items) => forall i :: 0 <= i < |items| ==> WellFormed(items[i])
    case Object(members) => DistinctKeys(members) && forall i :: 0 <= i < |members| ==> WellFormed(members[i].value)
    case _ => true
  }

  // ----- strings read back -----

  lemma {:induction false} EscapeDecodes(c: char, d: char, r: string, r': string)
    requires Escape(c) + r == Escape(d) + r'
    ensures c == d && r == r'
  {
    var x, y := Escape(c), Escape(d);
    assert x[0] == (x + r)[0] == (y + r')[0] == y[0];
    if x[0] == '\\' {
      assert |x| >= 2 && |y| >= 2;
      assert x[1] == (x + r)[1] == (y + r')[1] == y[1];
      if x[1] == 'u' {
        assert x[4] == (x + r)[4] == (y + r')[4] == y[4];
        assert x[5] == (x + r)[5] == (y + r')[5] == y[5];
        assert c as int == 16 * (c as int / 16) + c as int % 16;
        assert d as int == 16 * (d as int / 16) + d as int % 16;
        HexInjective(c as int / 16, d as int / 16);
        HexInjective(c as int % 16, d as int % 16);
      }
    }
    assert c == d;
    assert (x + r)[|x|..] == r && (y + r')[|y|..] == r';
  }

  lemma {:induction false} HexInjective(m: int, n: int)
    requires 0 <= m < 16 && 0 <= n < 16 && HexDigit(m) == HexDigit(n)
    ensures m == n
  {
  }

  /** An escaped string never starts with a bare quote. */
  lemma {:induction false} EscapedStart(s: string, r: string)
    ensures (EscapeAll(s) + "\"" + r)[0] == '"' <==> s == ""
  {
    if s != "" {
      assert (EscapeAll(s) + "\"" + r)[0] == Escape(s[0])[0];
    }
  }

  lemma {:induction false} EscapeUnfold(s: string, r: string)
    requires s != ""
    ensures EscapeAll(s) + "\"" + r == Escape(s[0]) + (EscapeAll(s[1..]) + "\"" + r)
  {
    hide Escape;
  }

  lemma {:induction false} EscapeAllDecodes(s: string, t: string, r: string, r': string)
    requires EscapeAll(s) + "\"" + r == EscapeAll(t) + "\"" + r'
    ensures s == t && r == r'
  {
    hide Escape;
    var left, right := EscapeAll(s) + "\"" + r, EscapeAll(t) + "\"" + r';
    EscapedStart(s, r);
    EscapedStart(t, r');
    if s == "" {
      assert left[1..] == r && right[1..] == r';
    } else {
      var a, b := EscapeAll(s[1..]) + "\"" + r, EscapeAll(t[1..]) + "\"" + r';
      EscapeUnfold(s, r);
      EscapeUnfold(t, r');
      EscapeDecodes(s[0], t[0], a, b);
      EscapeAllDecodes(s[1..], t[1..], r, r');
      assert s == [s[0]] + s[1..] && t == [t[0]] + t[1..];
    }
  }

  lemma {:induction false} QuotedTail(s: string, r: string)
    ensures (Quote(s) + r)[1..] == EscapeAll(s) + "\"" + r
  {
    hide EscapeAll;
  }

  lemma {:induction false} QuoteDecodes(s: string, t: string, r: string, r': string)
    requires Quote(s) + r == Quote(t) + r'
    ensures s == t && r == r'
  {
    hide EscapeAll;
    QuotedTail(s, r);
    QuotedTail(t, r');
    EscapeAllDecodes(s, t, r, r');
  }

  // ----- printing determines the meaning -----

  /** What can follow a printed value: nothing, or a closing or separating character. */
  predicate Stops(r: string) {
    r == "" || r[0] == ',' || r[0] == ']' || r[0] == '}'
  }

  /** The first character tells the kinds of values apart. */
  lemma {:induction false} FirstChar(before: KeyOrder, v: Json)
    requires WellFormed(v) && !v.Undefined?
    ensures Print(before, v) != ""
    ensures var c := Print(before, v)[0];
      match v
      case Null => c == 'n'
      case NonFinite => c == 'n'
      case Boolean(b) => c == if b then 't' else 'f'
      case Number(_) => '0' <= c <= '9' || c == '-'
      case Text(_) => c == '"'
      case Array(_) => c == '['
      case Object(_) => c == '{'
  {
  }

  lemma {:induction false} NumeralDecodes(x: string, y: string, r: string, r': string)
    requires IsNumeral(x) && IsNumeral(y) && Stops(r) && Stops(r') && x + r == y + r'
    ensures x == y && r == r'
  {
    Munch(x, r);
    Munch(y, r');
    assert |x| == |y|;
    assert (x + r)[..|x|] == x && (y + r')[..|y|] == y;
    assert (x + r)[|x|..] == r && (y + r')[|y|..] == r';
  }

  lemma {:induction false} Munch(x: string, r: string)
    requires IsNumeral(x) && Stops(r)
    ensures forall i :: 0 <= i < |x| ==> NumeralChar((x + r)[i])
    ensures |x + r| > |x| ==> !NumeralChar((x + r)[|x|])
  {
  }

  lemma {:induction false} SameHead(x: string, y: string, r: string, r': string)
    requires x == y && x + r == y + r'
    ensures r == r'
  {
    assert (x + r)[|x|..] == r && (y + r')[|y|..] == r';
  }

  /** Two printed values followed by stops are equal texts only if they mean the same and end alike. */
  lemma {:induction false} PrintDecodes(before: KeyOrder, v: Json, w: Json, r: string, r': string)
    requires WellFormed(v) && WellFormed(w) && Stops(r) && Stops(r')
    requires Print(before, v) + r == Print(before, w) + r'
    ensures Mean(v) == Mean(w) && r == r'
    decreases v, 2, 0
  {
    hide Quote;
    var x, y := Print(before, v), Print(before, w);
    if !v.Undefined? {
      FirstChar(before, v);
      assert (x + r)[0] == x[0];
    }
    if !w.Undefined? {
      FirstChar(before, w);
      assert (y + r')[0] == y[0];
    }
    if v.Undefined? || w.Undefined? {
      assert v == w;
      SameHead(x, y, r, r');
    } else if v.Number? {
      NumeralDecodes(x, y, r, r');
    } else if v.Text? {
      QuoteDecodes(v.s, w.s, r, r');
    } else if v.Array? {
      ArrayDecodes(before, v, w, r, r');
    } else if v.Object? {
      ObjectDecodes(before, v, w, r, r');
    } else {
      SameHead(x, y, r, r');
    }
  }

  lemma {:induction false} ArrayDecodes(before: KeyOrder, v: Json, w: Json, r: string, r': string)
    requires v.Array? && w.Array? && WellFormed(v) && WellFormed(w)
    requires Print(before, v) + r == Print(before, w) + r'
    ensures Mean(v) == Mean(w) && r == r'
    decreases v, 1, 0
  {
    var a, b := PrintItems(before, v, v.items) + "]" + r, PrintItems(before, w, w.items) + "]" + r';
    assert (Print(before, v) + r)[1..] == a && (Print(before, w) + r')[1..] == b;
    if v.items != [] && w.items != [] {
      ItemsDecode(before, v, w, v.items, w.items, r, r');
      assert MeanItems(v, v.items) == MeanItems(w, w.items);
      if |v.items| == 1 {
        OneItem(v, w);
      }
    } else {
      EmptyItems(before, v, r, b);
      EmptyItems(before, w, r', a);
      assert a[1..] == r && b[1..] == r';
    }
  }

  lemma {:induction false} OneItem(v: Json, w: Json)
    requires v.Array? && w.Array? && |v.items| == |w.items| == 1 && Mean(v.items[0]) == Mean(w.items[0])
    ensures Mean(v) == Mean(w)
  {
    assert v.items == [v.items[0]] && w.items == [w.items[0]];
  }

  /** A printed item list starts with the closing bracket only when it is empty or one undefined. */
  lemma {:induction false} EmptyItems(before: KeyOrder, v: Json, r: string, other: string)
    requires v.Array? && WellFormed(v) && other != ""
    requires PrintItems(before, v, v.items) + "]" + r == other
    ensures other[0] == ']' <==> v.items == [] || v.items == [Undefined]
    ensures v.items == [] || v.items == [Undefined] ==> PrintItems(before, v, v.items) == "" && Mean(v) == MArray([])
  {
    if v.items != [] {
      var first := v.items[0];
      if !first.Undefined? {
        FirstChar(before, first);
        assert other[0] == Print(before, first)[0];
      } else if |v.items| > 1 {
        assert other[0] == ',';
      } else {
        assert v.items == [Undefined];
      }
    }
  }

  lemma {:induction false} ItemsDecode(
      before: KeyOrder, v: Json, w: Json, xs: seq<Json>, ys: seq<Json>, r: string, r': string)
    requires forall i :: 0 <= i < |xs| ==> xs[i] < v && WellFormed(xs[i])
    requires forall i :: 0 <= i < |ys| ==> ys[i] < w && WellFormed(ys[i])
    requires xs != [] && ys != []
    requires PrintItems(before, v, xs) + "]" + r == PrintItems(before, w, ys) + "]" + r'
    ensures |xs| == |ys| && r == r' && forall i :: 0 <= i < |xs| ==> Mean(xs[i]) == Mean(ys[i])
    decreases v, 0, |xs|
  {
    hide Print, Mean, WellFormed, PrintItems, AfterItem, Stops;
    var a, b := AfterItem(before, v, xs, r), AfterItem(before, w, ys, r');
    ItemsUnfold(before, v, xs, r);
    ItemsUnfold(before, w, ys, r');
    PrintDecodes(before, xs[0], ys[0], a, b);
    if |xs| > 1 {
      ItemsDecode(before, v, w, xs[1..], ys[1..], r, r');
      assert forall i :: 0 < i < |xs| ==> xs[i] == xs[1..][i - 1] && ys[i] == ys[1..][i - 1];
    }
  }

  /** What follows the first item of a list. */
  function AfterItem(before: KeyOrder, v: Json, xs: seq<Json>, r: string): string
    requires xs != [] && forall i :: 0 <= i < |xs| ==> xs[i] < v
  {
    if |xs| == 1 then "]" + r else "," + (PrintItems(before, v, xs[1..]) + "]" + r)
  }

  lemma {:induction false} ItemsUnfold(before: KeyOrder, v: Json, xs: seq<Json>, r: string)
    requires xs != [] && forall i :: 0 <= i < |xs| ==> xs[i] < v
    ensures PrintItems(before, v, xs) + "]" + r == Print(before, xs[0]) + AfterItem(before, v, xs, r)
    ensures var a := AfterItem(before, v, xs, r);
      Stops(a) && a != "" && (a[0] == ']' <==> |xs| == 1)
    ensures |xs| == 1 ==> AfterItem(before, v, xs, r)[1..] == r
    ensures |xs| > 1 ==> AfterItem(before, v, xs, r)[1..] == PrintItems(before, v, xs[1..]) + "]" + r
  {
    hide Print;
  }

  lemma {:induction false} MembersStart(before: KeyOrder, v: Json, xs: seq<Member>, r: string)
    requires forall i :: 0 <= i < |xs| ==> xs[i].value < v
    ensures (PrintMembers(before, v, xs) + "}" + r)[0] == '}' <==> xs == []
  {
    if xs != [] {
      assert (PrintMembers(before, v, xs) + "}" + r)[0] == Quote(xs[0].key)[0];
    }
  }

  lemma {:induction false} MembersDecode(
      before: KeyOrder, v: Json, w: Json, xs: seq<Member>, ys: seq<Member>, r: string, r': string)
    requires forall i :: 0 <= i < |xs| ==> xs[i].value < v && WellFormed(xs[i].value)
    requires forall i :: 0 <= i < |ys| ==> ys[i].value < w && WellFormed(ys[i].value)
    requires PrintMembers(before, v, xs) + "}" + r == PrintMembers(before, w, ys) + "}" + r'
    ensures |xs| == |ys| && r == r'
    ensures forall i :: 0 <= i < |xs| ==> xs[i].key == ys[i].key && Mean(xs[i].value) == Mean(ys[i].value)
    decreases v, 0, |xs|
  {
    var left, right := PrintMembers(before, v, xs) + "}" + r, PrintMembers(before, w, ys) + "}" + r';
    MembersStart(before, v, xs, r);
    MembersStart(before, w, ys, r');
    if xs == [] {
      assert left[1..] == r && right[1..] == r';
    } else {
      hide Quote, Print, Mean, WellFormed, PrintMembers, AfterMember, Stops;
      var a, b := AfterMember(before, v, xs, r), AfterMember(before, w, ys, r');
      var p, q := ":" + (Print(before, xs[0].value) + a), ":" + (Print(before, ys[0].value) + b);
      MembersUnfold(before, v, xs, r);
      MembersUnfold(before, w, ys, r');
      QuoteDecodes(xs[0].key, ys[0].key, p, q);
      assert p[1..] == Print(before, xs[0].value) + a && q[1..] == Print(before, ys[0].value) + b;
      PrintDecodes(before, xs[0].value, ys[0].value, a, b);
      if |xs| > 1 {
        MembersDecode(before, v, w, xs[1..], ys[1..], r, r');
        assert forall i :: 0 < i < |xs| ==> xs[i] == xs[1..][i - 1] && ys[i] == ys[1..][i - 1];
      }
    }
  }

  /** What follows the first member of a list. */
  function AfterMember(before: KeyOrder, v: Json, xs: seq<Member>, r: string): string
    requires xs != [] && forall i :: 0 <= i < |xs| ==> xs[i].value < v
  {
    if |xs| == 1 then "}" + r else "," + (PrintMembers(before, v, xs[1..]) + "}" + r)
  }

  lemma {:induction false} MembersUnfold(before: KeyOrder, v: Json, xs: seq<Member>, r: string)
    requires xs != [] && forall i :: 0 <= i < |xs| ==> xs[i].value < v
    ensures PrintMembers(before, v, xs) + "}" + r
      == Quote(xs[0].key) + (":" + (Print(before, xs[0].value) + AfterMember(before, v, xs, r)))
    ensures var a := AfterMember(before, v, xs, r);
      Stops(a) && a != "" && (a[0] == '}' <==> |xs| == 1)
    ensures |xs| == 1 ==> AfterMember(before, v, xs, r)[1..] == r
    ensures |xs| > 1 ==> AfterMember(before, v, xs, r)[1..] == PrintMembers(before, v, xs[1..]) + "}" + r
  {
    hide Print, Quote;
  }

  lemma {:induction false} ObjectDecodes(before: KeyOrder, v: Json, w: Json, r: string, r': string)
    requires v.Object? && w.Object? && WellFormed(v) && WellFormed(w)
    requires Print(before, v) + r == Print(before, w) + r'
    ensures Mean(v) == Mean(w) && r == r'
    decreases v, 1, 0
  {
    hide Mean, SortedMembers, PrintMembers;
    var xs, ys := SortedMembers(before, v.members), SortedMembers(before, w.members);
    assert (Print(before, v) + r)[1..] == PrintMembers(before, v, xs) + "}" + r;
    assert (Print(before, w) + r')[1..] == PrintMembers(before, w, ys) + "}" + r';
    SortedBelow(before, v);
    SortedBelow(before, w);
    MembersDecode(before, v, w, xs, ys, r, r');
    MeanFromSorted(v, w, xs, ys);
  }

  // ----- the meaning of an object -----

  ghost predicate HasKey(members: seq<Member>, k: string) {
    exists m :: m in members && m.key == k && !m.value.Undefined?
  }

  lemma {:induction false} MeanMembersKeys(context: Json, members: seq<Member>)
    requires forall i :: 0 <= i < |members| ==> members[i].value < context
    ensures forall k :: k in MeanMembers(context, members) ==> HasKey(members, k)
    decreases |members|
  {
    hide Mean, HasKey;
    if members != [] {
      MeanMembersKeys(context, members[1..]);
      forall k | k in MeanMembers(context, members)
        ensures HasKey(members, k)
      {
        HasKeyCons(members, k);
      }
    }
  }

  lemma {:induction false} HasKeyCons(members: seq<Member>, k: string)
    requires members != []
    ensures HasKey(members[1..], k) || (members[0].key == k && !members[0].value.Undefined?) ==> HasKey(members, k)
  {
    assert members == [members[0]] + members[1..];
    assert members[0] in members;
    if HasKey(members[1..], k) {
      var m :| m in members[1..] && m.key == k && !m.value.Undefined?;
      assert m in members;
    }
  }

  lemma {:induction false} MeanMembersValue(context: Json, members: seq<Member>, i: nat)
    requires forall j :: 0 <= j < |members| ==> members[j].value < context
    requires DistinctKeys(members) && i < |members| && !members[i].value.Undefined?
    ensures members[i].key in MeanMembers(context, members)
    ensures MeanMembers(context, members)[members[i].key] == Mean(members[i].value)
    decreases |members|
  {
    hide Mean;
    if i > 0 {
      assert members[1..][i - 1] == members[i];
      MeanMembersValue(context, members[1..], i - 1);
    }
  }

  lemma {:induction false} MeanMembersLookup(context: Json, members: seq<Member>)
    requires forall i :: 0 <= i < |members| ==> members[i].value < context
    requires DistinctKeys(members)
    ensures forall k :: k in MeanMembers(context, members) ==> HasKey(members, k)
    ensures forall m :: m in members && !m.value.Undefined? ==>
      m.key in MeanMembers(context, members) && MeanMembers(context, members)[m.key] == Mean(m.value)
  {
    hide Mean, HasKey, MeanMembers;
    MeanMembersKeys(context, members);
    forall m | m in members && !m.value.Undefined?
      ensures m.key in MeanMembers(context, members) && MeanMembers(context, members)[m.key] == Mean(m.value)
    {
      var i :| 0 <= i < |members| && members[i] == m;
      MeanMembersValue(context, members, i);
    }
  }

  /** Lists of the defined members of two objects that agree position by position mean the same objects. */
  lemma {:induction false} MeanFromSorted(v: Json, w: Json, xs: seq<Member>, ys: seq<Member>)
    requires v.Object? && w.Object? && DistinctKeys(v.members) && DistinctKeys(w.members)
    requires forall m :: m in xs <==> m in v.members && !m.value.Undefined?
    requires forall m :: m in ys <==> m in w.members && !m.value.Undefined?
    requires |xs| == |ys|
    requires forall i :: 0 <= i < |xs| ==> xs[i].key == ys[i].key && Mean(xs[i].value) == Mean(ys[i].value)
    ensures Mean(v) == Mean(w)
  {
    MeanMembersLookup(v, v.members);
    MeanMembersLookup(w, w.members);
    SubMeaning(v, w, xs, ys);
    SubMeaning(w, v, ys, xs);
    assert MeanMembers(v, v.members) == MeanMembers(w, w.members);
  }

  lemma {:induction false} SubMeaning(v: Json, w: Json, xs: seq<Member>, ys: seq<Member>)
    requires v.Object? && w.Object? && DistinctKeys(v.members) && DistinctKeys(w.members)
    requires forall m :: m in xs <==> m in v.members && !m.value.Undefined?
    requires forall m :: m in ys <==> m in w.members && !m.value.Undefined?
    requires |xs| == |ys|
    requires forall i :: 0 <= i < |xs| ==> xs[i].key == ys[i].key && Mean(xs[i].value) == Mean(ys[i].value)
    ensures forall k :: k in MeanMembers(v, v.members) ==>
      k in MeanMembers(w, w.members) && MeanMembers(w, w.members)[k] == MeanMembers(v, v.members)[k]
  {
    hide Mean;
    MeanMembersLookup(v, v.members);
    MeanMembersLookup(w, w.members);
    forall k | k in MeanMembers(v, v.members)
      ensures k in MeanMembers(w, w.members) && MeanMembers(w, w.members)[k] == MeanMembers(v, v.members)[k]
    {
      assert HasKey(v.members, k);
      var m :| m in v.members && m.key == k && !m.value.Undefined?;
      assert m in xs;
      var i :| 0 <= i < |xs| && xs[i] == m;
      assert ys[i] in ys;
    }
  }

  // ----- the meaning determines the printing -----

  lemma {:induction false} MeaningPrints(before: KeyOrder, v: Json, w: Json)
    requires TotalOrder(before) && WellFormed(v) && WellFormed(w) && Mean(v) == Mean(w)
    ensures Print(before, v) == Print(before, w)
    decreases v, 2, 0
  {
    hide TotalOrder, Quote;
    if v.Array? {
      ItemsPrint(before, v, w);
    } else if v.Object? {
      ObjectPrints(before, v, w);
    }
  }

  lemma {:induction false} ItemsPrint(before: KeyOrder, v: Json, w: Json)
    requires TotalOrder(before) && WellFormed(v) && WellFormed(w) && v.Array? && Mean(v) == Mean(w)
    ensures Print(before, v) == Print(before, w)
    decreases v, 1, 0
  {
    hide TotalOrder;
    assert w.Array?;
    if v.items == [Undefined] || v.items == [] {
      assert |Mean(w).items| == 0;
      assert w.items == [Undefined] || w.items == [];
      NothingPrinted(before, v);
      NothingPrinted(before, w);
    } else {
      assert w.items != [Undefined];
      assert MeanItems(v, v.items) == MeanItems(w, w.items);
      EqualItemsPrint(before, v, w, v.items, w.items);
    }
  }

  lemma {:induction false} NothingPrinted(before: KeyOrder, v: Json)
    requires v.Array? && (v.items == [Undefined] || v.items == [])
    ensures Print(before, v) == "[]"
  {
    if v.items == [Undefined] {
      assert |v.items| == 1;
      assert PrintItems(before, v, v.items) == Print(before, v.items[0]);
    }
  }

  lemma {:induction false} EqualItemsPrint(before: KeyOrder, v: Json, w: Json, xs: seq<Json>, ys: seq<Json>)
    requires TotalOrder(before) && |xs| == |ys|
    requires forall i :: 0 <= i < |xs| ==> xs[i] < v && WellFormed(xs[i])
    requires forall i :: 0 <= i < |ys| ==> ys[i] < w && WellFormed(ys[i])
    requires forall i :: 0 <= i < |xs| ==> Mean(xs[i]) == Mean(ys[i])
    ensures PrintItems(before, v, xs) == PrintItems(before, w, ys)
    decreases v, 0, |xs|
  {
    hide TotalOrder;
    if xs != [] {
      MeaningPrints(before, xs[0], ys[0]);
      EqualItemsPrint(before, v, w, xs[1..], ys[1..]);
    }
  }

  lemma {:induction false} EqualMembersPrint(before: KeyOrder, v: Json, w: Json, xs: seq<Member>, ys: seq<Member>)
    requires TotalOrder(before) && |xs| == |ys|
    requires forall i :: 0 <= i < |xs| ==> xs[i].value < v && WellFormed(xs[i].value)
    requires forall i :: 0 <= i < |ys| ==> ys[i].value < w && WellFormed(ys[i].value)
    requires forall i :: 0 <= i < |xs| ==> xs[i].key == ys[i].key && Mean(xs[i].value) == Mean(ys[i].value)
    ensures PrintMembers(before, v, xs) == PrintMembers(before, w, ys)
    decreases v, 0, |xs|
  {
    hide TotalOrder, Quote;
    if xs != [] {
      MeaningPrints(before, xs[0].value, ys[0].value);
      EqualMembersPrint(before, v, w, xs[1..], ys[1..]);
    }
  }

  /** The sorted members of an object are among its members. */
  lemma {:induction false} SortedBelow(before: KeyOrder, v: Json)
    requires v.Object? && WellFormed(v)
    ensures var xs := SortedMembers(before, v.members);
      forall i :: 0 <= i < |xs| ==> xs[i].value < v && WellFormed(xs[i].value)
  {
    hide WellFormed;
    var xs := SortedMembers(before, v.members);
    MembersWellFormed(v);
    forall i | 0 <= i < |xs|
      ensures xs[i].value < v && WellFormed(xs[i].value)
    {
      assert xs[i] in xs;
      var j :| 0 <= j < |v.members| && v.members[j] == xs[i];
    }
  }

  lemma {:induction false} MembersWellFormed(v: Json)
    requires v.Object? && WellFormed(v)
    ensures forall i :: 0 <= i < |v.members| ==> WellFormed(v.members[i].value)
  {
  }

  lemma {:induction false} ObjectPrints(before: KeyOrder, v: Json, w: Json)
    requires TotalOrder(before) && WellFormed(v) && WellFormed(w) && v.Object? && Mean(v) == Mean(w)
    ensures Print(before, v) == Print(before, w)
    decreases v, 1, 0
  {
    var xs, ys := SortedMembers(before, v.members), SortedMembers(before, w.members);
    SortedPairs(before, v, w);
    hide TotalOrder;
    SortedBelow(before, v);
    SortedBelow(before, w);
    EqualMembersPrint(before, v, w, xs, ys);
  }

  /** Only the keys of a member list, for comparing orders. */
  function Keys(members: seq<Member>): (keys: seq<string>)
    ensures |keys| == |members| && forall i :: 0 <= i < |members| ==> keys[i] == members[i].key
  {
    seq(|members|, i requires 0 <= i < |members| => members[i].key)
  }

  lemma {:induction false} DefinedDistinct(members: seq<Member>)
    requires DistinctKeys(members)
    ensures DistinctKeys(Defined(members))
  {
    if members != [] {
      var rest := members[1..];
      assert DistinctKeys(rest);
      DefinedDistinct(rest);
      DefinedMembers(rest);
      forall m | m in Defined(rest)
        ensures m.key != members[0].key
      {
        var i :| 0 <= i < |rest| && rest[i] == m;
        assert members[i + 1] == m;
      }
      assert forall i :: 0 <= i < |Defined(rest)| ==> Defined(rest)[i] in Defined(rest);
    }
  }

  lemma {:induction false} SortedKeys(before: KeyOrder, members: seq<Member>)
    requires TotalOrder(before) && DistinctKeys(members)
    ensures Ascending(before, Keys(SortedMembers(before, members)))
  {
    var lt, d := ByKey(before), Defined(members);
    DefinedDistinct(members);
    assert forall x: Member, y: Member :: lt(x, y) == before(x.key, y.key);
    forall x: Member, y: Member, z: Member | lt(x, y) && lt(y, z)
      ensures lt(x, z)
    {
      assert before(x.key, y.key) && before(y.key, z.key);
    }
    assert Comparable(lt, d);
    SortAscending(lt, d);
  }

  /** Objects that mean the same have the same sorted keys, with values that mean the same. */
  lemma {:induction false} SortedPairs(before: KeyOrder, v: Json, w: Json)
    requires TotalOrder(before) && v.Object? && w.Object? && DistinctKeys(v.members) && DistinctKeys(w.members)
    requires Mean(v) == Mean(w)
    ensures var xs, ys := SortedMembers(before, v.members), SortedMembers(before, w.members);
      |xs| == |ys| && forall i :: 0 <= i < |xs| ==> xs[i].key == ys[i].key && Mean(xs[i].value) == Mean(ys[i].value)
  {
    var xs, ys := SortedMembers(before, v.members), SortedMembers(before, w.members);
    assert MeanMembers(v, v.members) == MeanMembers(w, w.members);
    MeanMembersLookup(v, v.members);
    MeanMembersLookup(w, w.members);
    SortedKeys(before, v.members);
    SortedKeys(before, w.members);
    KeysMeaning(before, v);
    KeysMeaning(before, w);
    AscendingUnique(before, Keys(xs), Keys(ys));
    forall i | 0 <= i < |xs|
      ensures xs[i].key == ys[i].key && Mean(xs[i].value) == Mean(ys[i].value)
    {
      assert xs[i] in xs && ys[i] in ys;
      assert xs[i].key == Keys(xs)[i] == Keys(ys)[i] == ys[i].key;
    }
  }

  lemma {:induction false} KeysMeaning(before: KeyOrder, v: Json)
    requires v.Object? && DistinctKeys(v.members)
    ensures forall k :: k in Keys(SortedMembers(before, v.members)) <==> k in MeanMembers(v, v.members)
  {
    hide Mean;
    var xs := SortedMembers(before, v.members);
    MeanMembersLookup(v, v.members);
    forall k
      ensures k in Keys(xs) <==> k in MeanMembers(v, v.members)
    {
      if k in Keys(xs) {
        var i :| 0 <= i < |xs| && Keys(xs)[i] == k;
        assert xs[i] in xs;
      }
      if k in MeanMembers(v, v.members) {
        assert HasKey(v.members, k);
        var m :| m in v.members && m.key == k && !m.value.Undefined?;
        assert m in xs;
        var i :| 0 <= i < |xs| && xs[i] == m;
        assert Keys(xs)[i] == k;
      }
    }
  }

  // ----- the result -----

  /** Two values print the same exactly when they mean the same. */
  lemma {:induction false} PrintIsCanonical(before: KeyOrder, v: Json, w: Json)
    requires TotalOrder(before) && WellFormed(v) && WellFormed(w)
    ensures Print(before, v) == Print(before, w) <==> Mean(v) == Mean(w)
  {
    if Print(before, v) == Print(before, w) {
      PrintDecodes(before, v, w, "", "");
    }
    if Mean(v) == Mean(w) {
      MeaningPrints(before, v, w);
    }
  }

  /** The one collision: an array of a single undefined prints like the empty array. */
  lemma {:induction false} LoneUndefinedCollides(before: KeyOrder)
    ensures Array([Undefined]) != Array([])
    ensures Print(before, Array([Undefined])) == Print(before, Array([])) == "[]"
  {
    assert |Array([Undefined]).items| == 1;
  }
}
