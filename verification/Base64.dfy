/** Base64 (section 4 of RFC 4648; pond-sec/app/static/novnc/core/base64.js). */
module Base64 {
  import opened Bytes
  import opened Powers

  // ----- the tables ---------------------------------------------------------------------------

  const PAD := '='

  /** The character of six bits. */
  function ToBase64(n: nat): (c: char)
    requires n < 64
    ensures c != PAD && c as int < 128
  {
    if n < 26 then ('A' as int + n) as char
    else if n < 52 then ('a' as int + n - 26) as char
    else if n < 62 then ('0' as int + n - 52) as char
    else if n == 62 then '+'
    else '/'
  }

  /** The six bits of a character code below 128; -1 for a code outside the alphabet.  The
      padding character counts as zeros. */
  function ToBinary(code: nat): (n: int)
    ensures -1 <= n < 64
  {
    if 'A' as int <= code <= 'Z' as int then code - 'A' as int
    else if 'a' as int <= code <= 'z' as int then code - 'a' as int + 26
    else if '0' as int <= code <= '9' as int then code - '0' as int + 52
    else if code == '+' as int then 62
    else if code == '/' as int then 63
    else if code == PAD as int then 0
    else -1
  }

  function BinaryOf(c: char): (n: int)
    ensures -1 <= n < 64
  {
    ToBinary(c as int % 128)
  }

  lemma TablesAgree(n: nat)
    requires n < 64
    ensures BinaryOf(ToBase64(n)) == n
  {
  }

  // ----- encoding ---------------------------------------------------------------------------------

  /** Four groups of six bits of a number of 24 bits, the high one first. */
  function Sextets(n: nat): seq<nat> {
    [n / 0x4_0000 % 64, n / 0x1000 % 64, n / 64 % 64, n % 64]
  }

  function Characters(sextets: seq<nat>): (s: string)
    requires forall i :: 0 <= i < |sextets| ==> sextets[i] < 64
    ensures |s| == |sextets|
  {
    seq(|sextets|, i requires 0 <= i < |sextets| => ToBase64(sextets[i]))
  }

  /** Three bytes make a number of 24 bits. */
  function Group(a: Byte, b: Byte, c: Byte): (s: string)
    ensures |s| == 4
  {
    Characters(Sextets(a as int * 0x1_0000 + b as int * 0x100 + c))
  }

  /** Every three bytes become four characters; one or two bytes at the end are filled with
      zero bits and padded. */
  function Encoded(data: seq<Byte>): (s: string)
    ensures |s| == (|data| + 2) / 3 * 4
  {
    if data == [] then []
    else if |data| == 1 then Group(data[0], 0, 0)[..2] + [PAD, PAD]
    else if |data| == 2 then Group(data[0], data[1], 0)[..3] + [PAD]
    else Group(data[0], data[1], data[2]) + Encoded(data[3..])
  }

  lemma SextetsOf(p: nat, q: nat, r: nat, s: nat)
    requires p < 64 && q < 64 && r < 64 && s < 64
    ensures Sextets(((p * 64 + q) * 64 + r) * 64 + s) == [p, q, r, s]
  {
    var n := ((p * 64 + q) * 64 + r) * 64 + s;
    assert n / 64 == (p * 64 + q) * 64 + r;
    assert n / 0x1000 == p * 64 + q;
    assert n / 0x4_0000 == p;
  }

  /** Three bytes and four characters are the same number, in base 256 and in base 64. */
  lemma GroupDigits(a: Byte, b: Byte, c: Byte, p: nat, q: nat, r: nat, s: nat)
    requires p < 64 && q < 64 && r < 64 && s < 64
    requires a as int * 0x1_0000 + b as int * 0x100 + c == ((p * 64 + q) * 64 + r) * 64 + s
    ensures Group(a, b, c) == [ToBase64(p), ToBase64(q), ToBase64(r), ToBase64(s)]
    ensures Encoded([a, b, c]) == Group(a, b, c)
  {
    SextetsOf(p, q, r, s);
    assert [a, b, c][3..] == [];
  }

  /** The first characters of each part of the alphabet, and its last two. */
  lemma AlphabetStarts()
    ensures Encoded([0x00, 0x10, 0x83]) == "ABCD" && Encoded([0x69, 0xB7, 0x1D]) == "abcd"
    ensures Encoded([0xD3, 0x5D, 0xB7]) == "0123" && Encoded([0xFB, 0xFF, 0xBF]) == "+/+/"
  {
    hide Encoded, Group;
    GroupDigits(0x00, 0x10, 0x83, 0, 1, 2, 3);
    GroupDigits(0x69, 0xB7, 0x1D, 26, 27, 28, 29);
    GroupDigits(0xD3, 0x5D, 0xB7, 52, 53, 54, 55);
    GroupDigits(0xFB, 0xFF, 0xBF, 62, 63, 62, 63);
  }

  /** The examples of section 10 of RFC 4648. */
  lemma PaddedExamples()
    ensures Encoded([0x66]) == "Zg==" && Encoded([0x66, 0x6F]) == "Zm8="
  {
    GroupDigits(0x66, 0, 0, 25, 32, 0, 0);
    GroupDigits(0x66, 0x6F, 0, 25, 38, 60, 0);
    hide Group;
  }

  lemma LongExample()
    ensures Encoded([0x66, 0x6F, 0x6F, 0x62, 0x61, 0x72]) == "Zm9vYmFy"
  {
    var six: seq<Byte> := [0x66, 0x6F, 0x6F, 0x62, 0x61, 0x72];
    assert six[3..] == [0x62, 0x61, 0x72];
    assert Encoded(six) == Group(0x66, 0x6F, 0x6F) + Encoded(six[3..]);
    hide Encoded, Group;
    GroupDigits(0x66, 0x6F, 0x6F, 25, 38, 61, 47);
    GroupDigits(0x62, 0x61, 0x72, 24, 38, 5, 50);
  }

  /** The six bits of each character, from the bytes. */
  lemma GroupOf(a: Byte, b: Byte, c: Byte)
    ensures var p, q: nat := a as int / 4, a as int % 4 * 16 + b as int / 16;
            var r, s: nat := b as int % 16 * 4 + c as int / 64, c as int % 64;
            && p < 64 && q < 64 && r < 64 && s < 64
            && Group(a, b, c) == [ToBase64(p), ToBase64(q), ToBase64(r), ToBase64(s)]
  {
    var p, q: nat := a as int / 4, a as int % 4 * 16 + b as int / 16;
    var r, s: nat := b as int % 16 * 4 + c as int / 64, c as int % 64;
    SextetsOf(p, q, r, s);
    assert a as int * 0x1_0000 + b as int * 0x100 + c as int == ((p * 64 + q) * 64 + r) * 64 + s;
    hide Sextets, ToBase64;
  }

  lemma {:induction false} GroupsFirst(data: seq<Byte>, i: nat)
    requires i % 3 == 0 && i + 3 <= |data|
    ensures Encoded(data[..i + 3]) == Encoded(data[..i]) + Group(data[i], data[i + 1], data[i + 2])
    decreases i
  {
    hide Group;
    if i == 0 {
      assert data[..3][3..] == [];
    } else {
      GroupsFirst(data[3..], i - 3);
      assert data[3..][..i] == data[..i + 3][3..] && data[3..][..i - 3] == data[..i][3..];
    }
  }

  lemma {:induction false} RestEncoded(data: seq<Byte>, i: nat)
    requires i % 3 == 0 && i <= |data|
    ensures Encoded(data) == Encoded(data[..i]) + Encoded(data[i..])
    decreases i
  {
    hide Group;
    if i > 0 {
      RestEncoded(data[3..], i - 3);
      assert data[3..][..i - 3] == data[..i][3..] && data[3..][i - 3..] == data[i..];
    } else {
      assert data[..0] == [] && data[0..] == data;
    }
  }

  method Encode(data: seq<Byte>) returns (result: string)
    ensures result == Encoded(data)
  {
    hide Encoded, Group, ToBase64;
    result := "";
    var length := |data|;
    var lengthpad := length % 3;
    var i := 0;
    NothingEncoded(data);
    while i < length - 2
      invariant i % 3 == 0 && i <= length
      invariant result == Encoded(data[..i])
    {
      var a: nat, b: nat, c: nat := data[i], data[i + 1], data[i + 2];
      GroupOf(a, b, c);
      GroupsFirst(data, i);
      ghost var before := result;
      result := result + [ToBase64(a / 4)];
      result := result + [ToBase64(a % 4 * 16 + b / 16)];
      result := result + [ToBase64(b % 16 * 4 + c / 64)];
      result := result + [ToBase64(c % 64)];
      assert result == before + Group(a, b, c);
      i := i + 3;
    }
    var tail := EncodeTail(data, length - lengthpad);
    RestEncoded(data, length - lengthpad);
    result := result + tail;
  }

  /** The remaining one or two bytes, padded to four characters. */
  method EncodeTail(data: seq<Byte>, j: nat) returns (result: string)
    requires j <= |data| < j + 3
    ensures result == Encoded(data[j..])
  {
    hide Encoded, Group, ToBase64;
    result := "";
    TailEncoded(data[j..]);
    if |data| - j == 2 {
      var a: nat, b: nat := data[j], data[j + 1];
      GroupOf(a, b, 0);
      result := result + [ToBase64(a / 4)];
      result := result + [ToBase64(a % 4 * 16 + b / 16)];
      result := result + [ToBase64(b % 16 * 4)];
      result := result + [PAD];
    } else if |data| - j == 1 {
      var a: nat := data[j];
      GroupOf(a, 0, 0);
      result := result + [ToBase64(a / 4)];
      result := result + [ToBase64(a % 4 * 16)];
      result := result + [PAD];
      result := result + [PAD];
    }
  }

  lemma NothingEncoded(data: seq<Byte>)
    ensures Encoded(data[..0]) == []
  {
  }

  lemma TailEncoded(data: seq<Byte>)
    requires |data| < 3
    ensures Encoded(data)
         == if |data| == 0 then [] else if |data| == 1 then Group(data[0], 0, 0)[..2] + [PAD, PAD]
            else Group(data[0], data[1], 0)[..3] + [PAD]
  {
  }

  // ----- decoding -----------------------------------------------------------------------------------

  /** The bytes found, and how many bits are left over. */
  datatype Scan = Scan(bytes: seq<Byte>, leftbits: nat)

  function Found(bytes: seq<Byte>, r: Scan): Scan {
    Scan(bytes + r.bytes, r.leftbits)
  }

  /** Characters outside the alphabet are skipped; each of the others adds six bits, and
      eight bits make a byte unless the character is padding. */
  function Scanned(chars: string, leftbits: nat, leftdata: nat): (r: Scan)
    decreases |chars|
  {
    if chars == [] then Scan([], leftbits)
    else
      var c := BinaryOf(chars[0]);
      if c == -1 then Scanned(chars[1..], leftbits, leftdata)
      else
        var data := leftdata * 64 + c;
        if leftbits < 2 then Scanned(chars[1..], leftbits + 6, data)
        else
          var bits: nat := leftbits - 2;
          Found(if chars[0] == PAD then [] else [data / Power(2, bits) % 256],
                Scanned(chars[1..], bits, data % Power(2, bits)))
  }

  /** A cell of the resulting array. */
  datatype Cell = Hole | Filled(value: Byte)

  function Cells(bytes: seq<Byte>): (r: seq<Cell>)
    ensures |r| == |bytes|
  {
    seq(|bytes|, i requires 0 <= i < |bytes| => Filled(bytes[i]))
  }

  function Holes(n: nat): (r: seq<Cell>)
    ensures |r| == n
  {
    seq(n, _ => Hole)
  }

  /** An array made for `length` numbers, with `bytes` written from its start. */
  function Written(bytes: seq<Byte>, length: nat): seq<Cell> {
    Cells(bytes) + Holes(if |bytes| < length then length - |bytes| else 0)
  }

  datatype Decoding = Corrupted | Decoded(result: seq<Cell>)

  /** The place of the first padding character; -1 without any. */
  function IndexOfPad(s: string): (i: int)
    ensures -1 <= i < |s|
  {
    if s == [] then -1 else if s[0] == PAD then 0 else if IndexOfPad(s[1..]) == -1 then -1 else 1 + IndexOfPad(s[1..])
  }

  /** The number of bytes announced, from the number of characters before the padding. */
  function ResultLength(data: string, offset: nat): nat
    requires offset <= |data|
  {
    var before := IndexOfPad(data) - offset;
    var n := if before < 0 then |data| - offset else before;
    n / 4 * 3 + (if n % 4 == 3 then 2 else if n % 4 == 2 then 1 else 0)
  }

  function DecodedFrom(data: string, offset: nat): Decoding
    requires offset <= |data|
  {
    var r := Scanned(data[offset..], 0, 0);
    if r.leftbits != 0 then Corrupted else Decoded(Written(r.bytes, ResultLength(data, offset)))
  }

  lemma FoundNothing(r: Scan)
    ensures Found([], r) == r
  {
    assert [] + r.bytes == r.bytes;
  }

  lemma FoundMore(a: seq<Byte>, b: seq<Byte>, r: Scan)
    ensures Found(a, Found(b, r)) == Found(a + b, r)
  {
    assert a + (b + r.bytes) == a + b + r.bytes;
  }

  lemma Write(bytes: seq<Byte>, length: nat, byte: Byte)
    ensures Written(bytes + [byte], length)
         == (var cells := Written(bytes, length);
             if |bytes| < |cells| then cells[|bytes| := Filled(byte)] else cells + [Filled(byte)])
  {
    assert Cells(bytes + [byte]) == Cells(bytes) + [Filled(byte)];
    if |bytes| < length {
      assert Holes(length - |bytes|) == [Hole] + Holes(length - |bytes| - 1);
    }
  }

  lemma NextScanned(data: string, i: nat, leftbits: nat, leftdata: nat)
    requires i < |data|
    ensures Scanned(data[i..], leftbits, leftdata)
         == (var c := BinaryOf(data[i]);
             if c == -1 then Scanned(data[i + 1..], leftbits, leftdata)
             else if leftbits < 2 then Scanned(data[i + 1..], leftbits + 6, leftdata * 64 + c)
             else
               var bits: nat := leftbits - 2;
               Found(if data[i] == PAD then [] else [(leftdata * 64 + c) / Power(2, bits) % 256],
                     Scanned(data[i + 1..], bits, (leftdata * 64 + c) % Power(2, bits))))
  {
    hide ToBinary, Power;
    assert data[i..][1..] == data[i + 1..];
  }

  method Decode(data: string, offset: nat) returns (r: Decoding)
    requires offset <= |data|
    ensures r == DecodedFrom(data, offset)
  {
    hide Scanned, Written, Found, Power, ResultLength, ToBinary, IndexOfPad;
    var dataLength := IndexOfPad(data) - offset;
    if dataLength < 0 {
      dataLength := |data| - offset;
    }
    var resultLength := dataLength / 4 * 3 + (if dataLength % 4 == 3 then 2 else if dataLength % 4 == 2 then 1 else 0);
    LengthOf(data, offset, dataLength);
    var result := Written([], resultLength);
    ghost var goal, bytes: seq<Byte> := Scanned(data[offset..], 0, 0), [];
    FoundNothing(goal);
    var leftbits: nat, leftdata: nat := 0, 0;
    var idx, i := 0, offset;
    while i < |data|
      invariant offset <= i <= |data| && idx == |bytes|
      invariant result == Written(bytes, resultLength)
      invariant goal == Found(bytes, Scanned(data[i..], leftbits, leftdata))
    {
      NextScanned(data, i, leftbits, leftdata);
      var c := BinaryOf(data[i]);
      var padding := data[i] == PAD;
      i := i + 1;
      if c == -1 {
        continue;
      }
      leftdata := leftdata * 64 + c;
      leftbits := leftbits + 6;
      if leftbits >= 8 {
        leftbits := leftbits - 8;
        ghost var rest := Scanned(data[i..], leftbits, leftdata % Power(2, leftbits));
        if !padding {
          var byte := leftdata / Power(2, leftbits) % 256;
          FoundMore(bytes, [byte], rest);
          Write(bytes, resultLength, byte);
          result := if idx < |result| then result[idx := Filled(byte)] else result + [Filled(byte)];
          idx := idx + 1;
          bytes := bytes + [byte];
        } else {
          FoundNothing(rest);
        }
        leftdata := leftdata % Power(2, leftbits);
      }
    }
    EndScanned(data, bytes, leftbits, leftdata);
    if leftbits != 0 {
      return Corrupted;
    }
    return Decoded(result);
  }

  lemma LengthOf(data: string, offset: nat, n: nat)
    requires offset <= |data|
    requires n == if IndexOfPad(data) - offset < 0 then |data| - offset else IndexOfPad(data) - offset
    ensures ResultLength(data, offset) == n / 4 * 3 + (if n % 4 == 3 then 2 else if n % 4 == 2 then 1 else 0)
  {
  }

  lemma EndScanned(data: string, bytes: seq<Byte>, leftbits: nat, leftdata: nat)
    ensures Found(bytes, Scanned(data[|data|..], leftbits, leftdata)) == Scan(bytes, leftbits)
  {
    assert bytes + [] == bytes;
  }

  // ----- decoding undoes encoding ---------------------------------------------------------------------

  /** One character of the alphabet in front of the others. */
  lemma ScanSextet(n: nat, tail: string, leftbits: nat, leftdata: nat)
    requires n < 64
    ensures Scanned([ToBase64(n)] + tail, leftbits, leftdata)
         == (if leftbits < 2 then Scanned(tail, leftbits + 6, leftdata * 64 + n)
             else
               var bits: nat := leftbits - 2;
               Found([(leftdata * 64 + n) / Power(2, bits) % 256],
                     Scanned(tail, bits, (leftdata * 64 + n) % Power(2, bits))))
  {
    TablesAgree(n);
    assert ([ToBase64(n)] + tail)[1..] == tail;
    hide ToBase64, ToBinary, Power;
  }

  lemma ScanPad(tail: string, leftbits: nat)
    requires leftbits >= 2
    ensures Scanned([PAD] + tail, leftbits, 0) == Scanned(tail, leftbits - 2, 0)
  {
    assert ([PAD] + tail)[1..] == tail;
    FoundNothing(Scanned(tail, leftbits - 2, 0));
    hide Power;
    assert 0 % Power(2, leftbits - 2) == 0;
  }

  lemma SmallPowers()
    ensures Power(2, 0) == 1 && Power(2, 2) == 4 && Power(2, 4) == 16
  {
    assert Power(2, 1) == 2 && Power(2, 3) == 8;
  }

  /** The first two characters of a group give its first byte. */
  lemma FirstByteBack(a: Byte, b: Byte, tail: string)
    ensures var p, q: nat := a as int / 4, a as int % 4 * 16 + b as int / 16;
            q < 64 && Scanned([ToBase64(p)] + ([ToBase64(q)] + tail), 0, 0)
            == Found([a], Scanned(tail, 4, b as int / 16))
  {
    hide Scanned, ToBase64, Power;
    var p, q: nat := a as int / 4, a as int % 4 * 16 + b as int / 16;
    SmallPowers();
    ScanSextet(p, [ToBase64(q)] + tail, 0, 0);
    ScanSextet(q, tail, 6, p);
    assert p * 64 + q == a as int * 16 + b as int / 16;
    assert (p * 64 + q) / 16 == a && (p * 64 + q) % 16 == b as int / 16;
  }

  lemma SecondByteBack(b: Byte, c: Byte, tail: string)
    ensures var r: nat := b as int % 16 * 4 + c as int / 64;
            r < 64 && Scanned([ToBase64(r)] + tail, 4, b as int / 16) == Found([b], Scanned(tail, 2, c as int / 64))
  {
    hide Scanned, ToBase64, Power;
    var r: nat := b as int % 16 * 4 + c as int / 64;
    SmallPowers();
    ScanSextet(r, tail, 4, b as int / 16);
    assert b as int / 16 * 64 + r == b as int * 4 + c as int / 64;
  }

  lemma ThirdByteBack(c: Byte, tail: string)
    ensures Scanned([ToBase64(c as int % 64)] + tail, 2, c as int / 64) == Found([c], Scanned(tail, 0, 0))
  {
    hide Scanned, ToBase64, Power;
    SmallPowers();
    ScanSextet(c as int % 64, tail, 2, c as int / 64);
    assert c as int / 64 * 64 + c as int % 64 == c;
  }

  /** A group of four characters in front of anything else gives its three bytes. */
  lemma GroupBack(a: Byte, b: Byte, c: Byte, tail: string)
    ensures Scanned(Group(a, b, c) + tail, 0, 0) == Found([a, b, c], Scanned(tail, 0, 0))
  {
    hide Scanned, ToBase64, Group, Found;
    GroupOf(a, b, c);
    var p, q: nat := a as int / 4, a as int % 4 * 16 + b as int / 16;
    var r, s: nat := b as int % 16 * 4 + c as int / 64, c as int % 64;
    var fourth := [ToBase64(s)] + tail;
    var third := [ToBase64(r)] + fourth;
    assert Group(a, b, c) + tail == [ToBase64(p)] + ([ToBase64(q)] + third);
    FirstByteBack(a, b, third);
    SecondByteBack(b, c, fourth);
    ThirdByteBack(c, tail);
    FoundMore([b], [c], Scanned(tail, 0, 0));
    FoundMore([a], [b] + [c], Scanned(tail, 0, 0));
    assert [a] + ([b] + [c]) == [a, b, c];
  }

  lemma OneByteBack(a: Byte)
    ensures Scanned(Encoded([a]), 0, 0) == Scan([a], 0)
  {
    hide Scanned, ToBase64, Group;
    TailEncoded([a]);
    GroupOf(a, 0, 0);
    FirstByteBack(a, 0, [PAD, PAD]);
    assert Encoded([a]) == [ToBase64(a as int / 4)] + ([ToBase64(a as int % 4 * 16)] + [PAD, PAD]);
    TwoPads();
  }

  lemma TwoBytesBack(a: Byte, b: Byte)
    ensures Scanned(Encoded([a, b]), 0, 0) == Scan([a, b], 0)
  {
    hide Scanned, ToBase64, Group, Found;
    var r := b as int % 16 * 4;
    TailEncoded([a, b]);
    GroupOf(a, b, 0);
    FirstByteBack(a, b, [ToBase64(r)] + [PAD]);
    SecondByteBack(b, 0, [PAD]);
    assert Encoded([a, b])
        == [ToBase64(a as int / 4)] + ([ToBase64(a as int % 4 * 16 + b as int / 16)] + ([ToBase64(r)] + [PAD]));
    TwoPads();
    FoundMore([a], [b], Scan([], 0));
    FoundAll([a] + [b]);
    assert [a] + [b] == [a, b];
  }

  lemma FoundAll(bytes: seq<Byte>)
    ensures Found(bytes, Scan([], 0)) == Scan(bytes, 0)
  {
    assert bytes + [] == bytes;
  }

  lemma TwoPads()
    ensures Scanned([PAD, PAD], 4, 0) == Scan([], 0) && Scanned([PAD], 2, 0) == Scan([], 0)
  {
    ScanPad([PAD], 4);
    ScanPad([], 2);
    assert [PAD] + [] == [PAD] && [PAD] + [PAD] == [PAD, PAD];
    assert Scanned([], 0, 0) == Scan([], 0);
    hide Scanned;
  }

  lemma {:induction false} BytesFound(data: seq<Byte>)
    ensures Scanned(Encoded(data), 0, 0) == Scan(data, 0)
    decreases |data|
  {
    if |data| > 2 {
      hide Scanned, Group;
      var a, b, c, rest := data[0], data[1], data[2], data[3..];
      GroupBack(a, b, c, Encoded(rest));
      BytesFound(rest);
      assert data == [a, b, c] + rest;
    } else if |data| == 2 {
      TwoBytesBack(data[0], data[1]);
      assert data == [data[0], data[1]];
    } else if |data| == 1 {
      OneByteBack(data[0]);
      assert data == [data[0]];
    }
  }

  /** Where the padding of an encoding begins. */
  function PaddingAt(data: seq<Byte>): int {
    if |data| % 3 == 0 then -1 else |data| / 3 * 4 + |data| % 3 + 1
  }

  lemma {:induction false} NoPadBefore(s: string, t: string)
    requires forall i :: 0 <= i < |s| ==> s[i] != PAD
    ensures IndexOfPad(s + t) == if IndexOfPad(t) == -1 then -1 else |s| + IndexOfPad(t)
    decreases |s|
  {
    if s == [] {
      assert s + t == t;
    } else {
      assert (s + t)[1..] == s[1..] + t;
      NoPadBefore(s[1..], t);
    }
  }

  lemma GroupHasNoPad(a: Byte, b: Byte, c: Byte)
    ensures forall i :: 0 <= i < 4 ==> Group(a, b, c)[i] != PAD
  {
  }

  lemma {:induction false} PaddingFound(data: seq<Byte>)
    ensures IndexOfPad(Encoded(data)) == PaddingAt(data)
    decreases |data|
  {
    hide Group;
    if |data| > 2 {
      GroupHasNoPad(data[0], data[1], data[2]);
      NoPadBefore(Group(data[0], data[1], data[2]), Encoded(data[3..]));
      PaddingFound(data[3..]);
    } else if |data| == 2 {
      GroupHasNoPad(data[0], data[1], 0);
      NoPadBefore(Group(data[0], data[1], 0)[..3], [PAD]);
    } else if |data| == 1 {
      GroupHasNoPad(data[0], 0, 0);
      NoPadBefore(Group(data[0], 0, 0)[..2], [PAD, PAD]);
    }
  }

  /** The array is made in the size of the data. */
  lemma LengthBack(data: seq<Byte>)
    ensures ResultLength(Encoded(data), 0) == |data|
  {
    hide Encoded, IndexOfPad;
    PaddingFound(data);
  }

  lemma AllCells(data: seq<Byte>)
    ensures Written(data, |data|) == Cells(data)
  {
    assert Cells(data) + Holes(0) == Cells(data);
  }

  lemma WholeString(s: string)
    ensures s[0..] == s
  {
  }

  /** Decoding an encoding gives the bytes back: it is never found corrupted, the array is
      made in its final size and no cell of it stays empty. */
  lemma RoundTrip(data: seq<Byte>)
    ensures ResultLength(Encoded(data), 0) == |data|
    ensures DecodedFrom(Encoded(data), 0) == Decoded(Cells(data))
  {
    hide Scanned, Encoded, ResultLength, IndexOfPad, Written, Cells;
    LengthBack(data);
    BytesFound(data);
    WholeString(Encoded(data));
    AllCells(data);
  }

  /** The characters of the alphabet, padding included. */
  function Legal(chars: string): nat {
    if chars == [] then 0 else (if BinaryOf(chars[0]) == -1 then 0 else 1) + Legal(chars[1..])
  }

  function NextBits(leftbits: nat): nat {
    if leftbits < 2 then leftbits + 6 else leftbits - 2
  }

  /** The bits left over after `n` more characters. */
  function BitsAfter(leftbits: nat, n: nat): nat
    decreases n
  {
    if n == 0 then leftbits else BitsAfter(NextBits(leftbits), n - 1)
  }

  lemma BitsNext(chars: string, leftbits: nat, leftdata: nat) returns (data: nat)
    requires chars != []
    ensures Scanned(chars, leftbits, leftdata).leftbits
         == if BinaryOf(chars[0]) == -1 then Scanned(chars[1..], leftbits, leftdata).leftbits
            else Scanned(chars[1..], NextBits(leftbits), data).leftbits
  {
    hide ToBinary, Power;
    var c := BinaryOf(chars[0]);
    data := if c == -1 then leftdata else leftdata * 64 + c;
    if leftbits >= 2 {
      data := data % Power(2, leftbits - 2);
    }
  }

  lemma {:induction false} BitsLeft(chars: string, leftbits: nat, leftdata: nat)
    ensures Scanned(chars, leftbits, leftdata).leftbits == BitsAfter(leftbits, Legal(chars))
    decreases |chars|
  {
    if chars != [] {
      var data := BitsNext(chars, leftbits, leftdata);
      hide Scanned, BinaryOf, NextBits;
      if BinaryOf(chars[0]) == -1 {
        BitsLeft(chars[1..], leftbits, leftdata);
      } else {
        BitsLeft(chars[1..], NextBits(leftbits), data);
      }
    }
  }

  lemma {:induction false} FourLeaveNothing(n: nat)
    ensures BitsAfter(0, n) == 0 <==> n % 4 == 0
    decreases n
  {
    if n >= 4 {
      assert BitsAfter(0, n) == BitsAfter(6, n - 1);
      assert BitsAfter(6, n - 1) == BitsAfter(4, n - 2);
      assert BitsAfter(4, n - 2) == BitsAfter(2, n - 3);
      assert BitsAfter(2, n - 3) == BitsAfter(0, n - 4);
      FourLeaveNothing(n - 4);
    } else {
      assert BitsAfter(2, 0) == 2 && BitsAfter(4, 1) == BitsAfter(2, 0) && BitsAfter(6, 2) == BitsAfter(4, 1);
      assert BitsAfter(4, 0) == 4 && BitsAfter(6, 1) == BitsAfter(4, 0);
      assert BitsAfter(6, 0) == 6;
    }
  }

  /** A string is refused exactly when its characters of the alphabet do not come in fours. */
  lemma CorruptedExactly(data: string, offset: nat)
    requires offset <= |data|
    ensures DecodedFrom(data, offset) == Corrupted <==> Legal(data[offset..]) % 4 != 0
  {
    hide Scanned, Legal, BitsAfter, Written, ResultLength;
    BitsLeft(data[offset..], 0, 0);
    FourLeaveNothing(Legal(data[offset..]));
  }
}
