/** The encoder as the program runs it: a regrouping iterator from eight to six bits, then padding. */
module Base64Stream {
  import opened Base64
  import Structures

  // 2 to the power of an even number of bits.
  function Shift(bits: int): (r: int)
    requires bits in {0, 2, 4, 6, 8}
    ensures r > 0
  {
    if bits == 0 then 1 else if bits == 2 then 4 else if bits == 4 then 16 else if bits == 6 then 64 else 256
  }

  // The bits left over from the last byte read, at the top of the next sextet.
  function Leftover(bufferIn: Byte, bits: int): int {
    if bits == 0 then 0
    else if bits == 2 then bufferIn % 4 * 16
    else if bits == 4 then bufferIn % 16 * 4
    else bufferIn % 64
  }

  // The high bits of a byte that fill the sextet up.
  function HighBits(byte: Byte, bits: int): int {
    if bits == 0 then byte / 4 else if bits == 2 then byte / 16 else byte / 64
  }

  // The next i of the bits that remain of a byte.
  function Taken(byte: Byte, remaining: int, i: int): int
    requires remaining in {0, 2, 4, 6, 8} && i in {0, 2, 4, 6} && i <= remaining
  {
    byte / Shift(remaining - i) % Shift(i)
  }

  lemma TakenFromByte(byte: Byte, bits: int)
    requires bits in {0, 2, 4}
    ensures Taken(byte, 8, 6 - bits) == HighBits(byte, bits)
  {
  }

  lemma TakenLeftover(byte: Byte, bits: int)
    requires bits in {2, 4, 6}
    ensures Taken(byte, bits, bits) * Shift(6 - bits) == Leftover(byte, bits)
  {
  }

  // Taking one sextet: from the bits left over alone when there are six, else they come first and the
  // next byte's high bits, or zeros after the last byte, fill it up.
  ghost predicate Refill(b: seq<Byte>, pos: nat, bits: int, bufferIn: Byte,
                         pos': nat, bits': int, bufferIn': Byte, sextet: int)
    requires pos <= |b|
  {
    if bits == 6 || pos == |b| then
      pos' == pos && bits' == 0 && sextet == Leftover(bufferIn, bits)
    else
      && pos' == pos + 1 && bits' == bits + 2 && bufferIn' == b[pos]
      && sextet == Leftover(bufferIn, bits) + HighBits(b[pos], bits)
  }

  /** Boost's transform_width for 8 bits in and 6 bits out, over the bytes of one buffer. */
  class TransformWidth {
    const source: seq<Byte>
    var pos: nat
    var bufferIn: Byte
    var remainingBits: nat
    var endOfSequence: bool

    constructor (source: seq<Byte>)
      ensures this.source == source && pos == 0 && remainingBits == 0 && !endOfSequence
    {
      this.source := source;
      pos, bufferIn, remainingBits, endOfSequence := 0, 0, 0, false;
    }

    // Comparing with the end iterator notes that the bytes have run out; bits may still be left over.
    method AtEnd() returns (r: bool)
      modifies this`endOfSequence
      ensures r <==> pos == |source| && remainingBits == 0
      ensures endOfSequence == (old(endOfSequence) || pos == |source|)
    {
      r := false;
      if pos == |source| {
        endOfSequence := true;
        r := remainingBits == 0;
      }
    }

    // The next byte, or after the last one as many zero bits as are missing.
    method Load(missing: nat)
      requires pos <= |source| && (endOfSequence <==> pos == |source|)
      modifies this`pos, this`bufferIn, this`remainingBits
      ensures if old(pos) < |source|
              then pos == old(pos) + 1 && bufferIn == source[old(pos)] && remainingBits == 8
              else pos == old(pos) && bufferIn == 0 && remainingBits == missing
    {
      if endOfSequence {
        bufferIn := 0;
        remainingBits := missing;
      } else {
        bufferIn := source[pos];
        pos := pos + 1;
        remainingBits := 8;
      }
    }

    // The next sextet: the bits left over, then the high bits of the next byte or zeros at the end.
    method Fill() returns (sextet: Sextet)
      requires pos <= |source| && remainingBits in {0, 2, 4, 6}
      requires endOfSequence <==> pos == |source|
      requires pos == |source| ==> remainingBits > 0
      modifies this`pos, this`bufferIn, this`remainingBits
      ensures Refill(source, old(pos), old(remainingBits), old(bufferIn), pos, remainingBits, bufferIn, sextet)
    {
      var missing := 6;
      var out := 0;
      ghost var r := remainingBits;
      while missing > 0
        invariant missing == 6 || missing == 6 - r || missing == 0
        invariant missing == 6 ==> remainingBits == r && pos == old(pos) && bufferIn == old(bufferIn) && out == 0
        invariant 0 < missing < 6 ==>
                    remainingBits == 0 && pos == old(pos) && out * Shift(missing) == Leftover(old(bufferIn), r)
        invariant missing == 0 ==> Refill(source, old(pos), r, old(bufferIn), pos, remainingBits, bufferIn, out)
      {
        if remainingBits == 0 {
          Load(missing);
        }
        var i := if missing < remainingBits then missing else remainingBits;
        var bits := Taken(bufferIn, remainingBits, i);
        if remainingBits == 8 {
          TakenFromByte(bufferIn, r);
        } else if missing == 6 {
          TakenLeftover(bufferIn, r);
        }
        out := out * Shift(i) + bits;
        missing := missing - i;
        remainingBits := remainingBits - i;
      }
      sextet := out;
    }
  }

  // The bits left over are the low bits of the last byte read, two for each byte of the group so far.
  ghost predicate Aligned(b: seq<Byte>, pos: nat, bits: int, bufferIn: Byte) {
    && pos <= |b|
    && bits in {0, 2, 4, 6}
    && (bits == 0 ==> pos % 3 == 0 || pos == |b|)
    && (bits > 0 ==> pos > 0 && bufferIn == b[pos - 1] && bits == if pos % 3 == 0 then 6 else pos % 3 * 2)
  }

  function BitsLeft(b: seq<Byte>, pos: nat, bits: int): int {
    8 * (|b| - pos) + bits
  }

  // The symbols written for the group the iterator is in; with bits == 0 its last sextet was zero-filled.
  function GroupSoFar(b: seq<Byte>, pos: nat, bits: int): string
    requires pos <= |b| && GroupStart(pos, bits) >= 0
  {
    var p := GroupStart(pos, bits);
    if pos == p then ""
    else if pos == p + 1 then
      [Symbol(Sextet0(b[p]))] + (if bits == 0 then [Symbol(Sextet1(b[p], 0))] else "")
    else
      [Symbol(Sextet0(b[p])), Symbol(Sextet1(b[p], b[p + 1]))]
      + (if pos == p + 3 then [Symbol(Sextet2(b[p + 1], b[p + 2]))]
         else if bits == 0 then [Symbol(Sextet2(b[p + 1], 0))] else "")
  }

  function GroupStart(pos: nat, bits: int): int {
    if bits == 6 then pos - 3 else pos - pos % 3
  }

  // What has been written when the iterator stands at a byte position with some bits left over.
  ghost predicate WrittenSoFar(b: seq<Byte>, pos: nat, bits: int, text: string) {
    && pos <= |b|
    && 0 <= GroupStart(pos, bits)
    && text == Encode(b[..GroupStart(pos, bits)]) + GroupSoFar(b, pos, bits)
  }

  lemma GroupComplete(b: seq<Byte>, pos: nat, text: string)
    requires 3 <= pos <= |b| && pos % 3 == 0
    ensures WrittenSoFar(b, pos, 6, text) ==> WrittenSoFar(b, pos, 0, text + [Symbol(Sextet3(b[pos - 1]))])
  {
    if !WrittenSoFar(b, pos, 6, text) {
      return;
    }
    var last := [Symbol(Sextet3(b[pos - 1]))];
    FourthSymbol(b, pos);
    assert b[..pos] == b[..pos - 3] + b[pos - 3..pos];
    GroupAppended(b[..pos - 3], b[pos - 3..pos], text, GroupSoFar(b, pos, 6), last);
    NothingSoFar(b, pos, text + last);
  }

  lemma FourthSymbol(b: seq<Byte>, pos: nat)
    requires 3 <= pos <= |b| && GroupStart(pos, 6) == pos - 3
    ensures GroupSoFar(b, pos, 6) + [Symbol(Sextet3(b[pos - 1]))] == EncodeGroup(b[pos - 3..pos])
  {
  }

  lemma GroupAppended(a: seq<Byte>, g: seq<Byte>, text: string, group: string, last: string)
    requires |a| % 3 == 0 && |g| == 3
    requires text == Encode(a) + group && group + last == EncodeGroup(g)
    ensures text + last == Encode(a + g)
  {
    WholeGroup(g);
    EncodeConcat(a, g);
    Structures.Assoc(Encode(a), group, last);
  }

  lemma NothingSoFar(b: seq<Byte>, pos: nat, text: string)
    requires pos <= |b| && pos % 3 == 0 && text == Encode(b[..pos])
    ensures WrittenSoFar(b, pos, 0, text)
  {
    assert text + "" == text;
  }

  lemma WholeGroup(g: seq<Byte>)
    requires |g| == 3
    ensures Encode(g) == EncodeGroup(g)
  {
    assert g[..3] == g && g[3..] == [] && EncodeGroup(g) + "" == EncodeGroup(g);
  }

  // The text for a filled buffer is its base64 encoding.
  method EncodeBuffer(buffer: seq<Byte>) returns (text: string)
    ensures text == Encode(buffer)
  {
    var it := new TransformWidth(buffer);
    var encoded := "";
    var end := it.AtEnd();
    while !end
      invariant it.source == buffer
      invariant Aligned(buffer, it.pos, it.remainingBits, it.bufferIn)
      invariant it.endOfSequence <==> it.pos == |buffer|
      invariant end <==> it.pos == |buffer| && it.remainingBits == 0
      invariant WrittenSoFar(buffer, it.pos, it.remainingBits, encoded)
      decreases BitsLeft(buffer, it.pos, it.remainingBits)
    {
      ghost var pos, bits, bufferIn, before := it.pos, it.remainingBits, it.bufferIn, encoded;
      var sextet := it.Fill();
      encoded := encoded + [Symbol(sextet)];
      WrittenStep(buffer, pos, bits, bufferIn, before, it.pos, it.remainingBits, it.bufferIn, sextet);
      end := it.AtEnd();
    }
    var padding := (3 - |buffer| % 3) % 3;
    PaddingWritten(|buffer|);
    text := encoded + "==="[..padding];
    PaddingCompletes(buffer, encoded);
  }

  // One more sextet.
  lemma AlignedStep(b: seq<Byte>, pos: nat, bits: int, bufferIn: Byte,
                    pos': nat, bits': int, bufferIn': Byte, sextet: Sextet)
    requires Aligned(b, pos, bits, bufferIn) && (pos < |b| || bits > 0)
    requires Refill(b, pos, bits, bufferIn, pos', bits', bufferIn', sextet)
    ensures Aligned(b, pos', bits', bufferIn') && BitsLeft(b, pos', bits') < BitsLeft(b, pos, bits)
    ensures bits < 6 ==> GroupStart(pos', bits') == GroupStart(pos, bits)
  {
  }

  lemma GroupStep(b: seq<Byte>, pos: nat, bits: int, bufferIn: Byte,
                  pos': nat, bits': int, bufferIn': Byte, sextet: Sextet)
    requires Aligned(b, pos, bits, bufferIn) && (pos < |b| || bits > 0) && bits < 6
    requires Refill(b, pos, bits, bufferIn, pos', bits', bufferIn', sextet)
    ensures pos' <= |b| && GroupStart(pos, bits) >= 0 && GroupStart(pos', bits') == GroupStart(pos, bits)
    ensures GroupSoFar(b, pos', bits') == GroupSoFar(b, pos, bits) + [Symbol(sextet)]
  {
    var p := GroupStart(pos, bits);
    if bits == 0 {
      assert pos == p;
    } else if bits == 2 {
      assert pos == p + 1;
    } else {
      assert pos == p + 2;
    }
  }

  lemma WrittenStep(b: seq<Byte>, pos: nat, bits: int, bufferIn: Byte, text: string,
                    pos': nat, bits': int, bufferIn': Byte, sextet: Sextet)
    requires Aligned(b, pos, bits, bufferIn) && WrittenSoFar(b, pos, bits, text)
    requires pos < |b| || bits > 0
    requires Refill(b, pos, bits, bufferIn, pos', bits', bufferIn', sextet)
    ensures Aligned(b, pos', bits', bufferIn') && WrittenSoFar(b, pos', bits', text + [Symbol(sextet)])
    ensures BitsLeft(b, pos', bits') < BitsLeft(b, pos, bits)
  {
    AlignedStep(b, pos, bits, bufferIn, pos', bits', bufferIn', sextet);
    if bits == 6 {
      GroupComplete(b, pos, text);
    } else {
      GroupStep(b, pos, bits, bufferIn, pos', bits', bufferIn', sextet);
      Structures.Assoc(Encode(b[..GroupStart(pos, bits)]), GroupSoFar(b, pos, bits), [Symbol(sextet)]);
    }
  }

  lemma WholeGroups(n: nat)
    ensures (n - n % 3) % 3 == 0
  {
    var k := n / 3;
    assert n - n % 3 == 3 * k;
  }

  lemma PaddingCompletes(b: seq<Byte>, text: string)
    requires WrittenSoFar(b, |b|, 0, text)
    ensures text + PaddingText(|b|) == Encode(b)
  {
    var p := |b| - |b| % 3;
    WholeGroups(|b|);
    LastGroup(b, p);
    Pieces(b, p, text, GroupSoFar(b, |b|, 0), PaddingText(|b|));
  }

  // The padding for a buffer of n bytes.
  function PaddingText(n: nat): string {
    if n % 3 == 0 then "" else if n % 3 == 1 then "==" else "="
  }

  lemma PaddingWritten(n: nat)
    ensures 0 <= (3 - n % 3) % 3 <= 3
    ensures "==="[..(3 - n % 3) % 3] == PaddingText(n)
  {
    if n % 3 == 0 {
      assert "==="[..0] == "";
    } else if n % 3 == 1 {
      assert "==="[..2] == "==";
    } else {
      assert "==="[..1] == "=";
    }
  }

  lemma Pieces(b: seq<Byte>, p: nat, text: string, group: string, padding: string)
    requires p <= |b| && p % 3 == 0
    requires text == Encode(b[..p]) + group && Encode(b[p..]) == group + padding
    ensures text + padding == Encode(b)
  {
    SplitEncode(b, p);
    Structures.Assoc(Encode(b[..p]), group, padding);
  }

  lemma SplitEncode(b: seq<Byte>, p: nat)
    requires p <= |b| && p % 3 == 0
    ensures Encode(b) == Encode(b[..p]) + Encode(b[p..])
  {
    EncodeConcat(b[..p], b[p..]);
    assert b == b[..p] + b[p..];
  }

  lemma LastGroup(b: seq<Byte>, p: nat)
    requires p == |b| - |b| % 3
    ensures Encode(b[p..]) == GroupSoFar(b, |b|, 0) + PaddingText(|b|)
  {
    var g := b[p..];
    if |b| % 3 == 0 {
      assert g == [];
    } else if |b| % 3 == 1 {
      assert g == [b[p]];
      assert EncodeGroup(g) == [Symbol(Sextet0(b[p])), Symbol(Sextet1(b[p], 0))] + "==";
    } else {
      assert g == [b[p], b[p + 1]];
      assert EncodeGroup(g)
             == [Symbol(Sextet0(b[p])), Symbol(Sextet1(b[p], b[p + 1])), Symbol(Sextet2(b[p + 1], 0))] + "=";
    }
  }

  datatype ImageFile = CannotOpen | CannotRead | Contents(bytes: seq<Byte>)

  // A file that cannot be opened or read gives the empty text, which an image never does.
  method FnConvertImageToBase64String(image: ImageFile) returns (text: string)
    ensures image.Contents? ==> Decode(text) == Structures.Some(image.bytes)
    ensures text == "" <==> !image.Contents? || image.bytes == []
  {
    match image
    case CannotOpen => return "";
    case CannotRead => return "";
    case Contents(buffer) =>
      text := EncodeBuffer(buffer);
      DecodeEncode(buffer);
      EncodedShape(buffer);
  }
}
