/** Pieces of byte buffers: where they lie, and how fixed-width numbers are stored in them. */
module Bytes {
  import opened Prelude

  /** `piece` lies in `buffer` at `offset`. */
  ghost predicate At(buffer: seq<byte>, offset: nat, piece: seq<byte>) {
    offset + |piece| <= |buffer| && buffer[offset..offset + |piece|] == piece
  }

  lemma {:induction false} AtConcat(buffer: seq<byte>, offset: nat, x: seq<byte>, y: seq<byte>)
    requires At(buffer, offset, x + y)
    ensures At(buffer, offset, x) && At(buffer, offset + |x|, y)
  {
    var z := buffer[offset..offset + |x + y|];
    assert z[..|x|] == x && z[|x|..] == y;
  }

  function Sum(s: seq<byte>): nat {
    if s == [] then 0 else s[0] + Sum(s[1..])
  }

  lemma {:induction false} SumConcat(a: seq<byte>, b: seq<byte>)
    ensures Sum(a + b) == Sum(a) + Sum(b)
  {
    if a == [] {
      assert a + b == b;
    } else {
      assert (a + b)[1..] == a[1..] + b;
      SumConcat(a[1..], b);
    }
  }

  lemma {:induction false} SumBound(s: seq<byte>)
    ensures Sum(s) <= 255 * |s|
  {
    if s != [] {
      SumBound(s[1..]);
    }
  }

  // ----- little-endian numbers -----

  function Le16(value: nat): (s: seq<byte>)
    ensures |s| == 2
  {
    [value % 256, value / 256 % 256]
  }

  function Le32(value: nat): (s: seq<byte>)
    ensures |s| == 4
  {
    [value % 256, value / 256 % 256, value / 65536 % 256, value / 0x100_0000 % 256]
  }

  /** Reading outside the buffer throws a range error in the original, here `None`. */
  function Read16(buffer: seq<byte>, offset: nat): Option<nat> {
    if offset + 2 > |buffer| then None
    else
      var b0: nat, b1: nat := buffer[offset], buffer[offset + 1];
      Some(b0 + 256 * b1)
  }

  function Read32(buffer: seq<byte>, offset: nat): Option<nat> {
    if offset + 4 > |buffer| then None
    else
      var b0: nat, b1: nat, b2: nat, b3: nat :=
        buffer[offset], buffer[offset + 1], buffer[offset + 2], buffer[offset + 3];
      Some(b0 + 256 * b1 + 65536 * b2 + 0x100_0000 * b3)
  }

  lemma {:induction false} Read16At(buffer: seq<byte>, offset: nat, value: nat)
    requires At(buffer, offset, Le16(value)) && value < 0x1_0000
    ensures Read16(buffer, offset) == Some(value)
  {
    var z := buffer[offset..offset + 2];
    assert z[0] == buffer[offset] && z[1] == buffer[offset + 1];
  }

  lemma {:induction false} WordDigits(value: nat)
    requires value < 0x1_0000_0000
    ensures value
      == value % 256 + 256 * (value / 256 % 256) + 65536 * (value / 65536 % 256)
        + 0x100_0000 * (value / 0x100_0000 % 256)
  {
    var a, b, c := value / 256, value / 65536, value / 0x100_0000;
    assert a / 256 == b && b / 256 == c && c < 256;
    assert a == 256 * b + a % 256 && b == 256 * c + b % 256;
  }

  lemma {:induction false} Read32At(buffer: seq<byte>, offset: nat, value: nat)
    requires At(buffer, offset, Le32(value)) && value < 0x1_0000_0000
    ensures Read32(buffer, offset) == Some(value)
  {
    var z := buffer[offset..offset + 4];
    WordDigits(value);
    assert z[0] == buffer[offset] && z[1] == buffer[offset + 1] && z[2] == buffer[offset + 2]
      && z[3] == buffer[offset + 3];
  }

  // ----- in-place writes -----

  /** `Buffer.write`, `copy`, `fill` and the integer writers: overwrite a stretch, leave the rest. */
  method Put(a: array<byte>, offset: nat, piece: seq<byte>)
    requires offset + |piece| <= a.Length
    modifies a
    ensures a[..] == old(a[..offset]) + piece + old(a[offset + |piece|..])
  {
    for i := 0 to |piece|
      invariant a[..] == old(a[..offset]) + piece[..i] + old(a[offset + i..])
    {
      a[offset + i] := piece[i];
    }
    assert piece[..|piece|] == piece;
  }

  /** Appending at the end of the part already written, the rest being still zero. */
  method Append(a: array<byte>, offset: nat, piece: seq<byte>)
    requires offset + |piece| <= a.Length
    requires a[offset..] == Zeros(a.Length - offset)
    modifies a
    ensures a[..offset + |piece|] == old(a[..offset]) + piece
    ensures a[offset + |piece|..] == Zeros(a.Length - offset - |piece|)
  {
    Put(a, offset, piece);
    assert a[..offset + |piece|] == a[..][..offset + |piece|];
    assert a[offset + |piece|..] == a[..][offset + |piece|..];
    assert old(a[offset + |piece|..]) == old(a[offset..])[|piece|..];
  }

  method Alloc(n: nat) returns (a: array<byte>)
    ensures fresh(a) && a.Length == n && a[..] == Zeros(n)
  {
    a := new byte[n](_ => 0);
  }
}
