/** The mobile app's base64 decoder, against the encoding of section 4 of RFC 4648. JavaScript's
    32-bit operators are written out on integers; a write past the end of a typed array is ignored,
    as JavaScript does. */
module Base64 {
  import opened Spaces

  type Byte = x: int | 0 <= x < 256
  type Sextet = x: int | 0 <= x < 64

  /** The position of a character in the alphabet A-Z, a-z, 0-9, + and /, or -1. */
  function IndexOf(c: char): (i: int)
    ensures -1 <= i < 64
  {
    if 'A' <= c <= 'Z' then c as int - 'A' as int
    else if 'a' <= c <= 'z' then c as int - 'a' as int + 26
    else if '0' <= c <= '9' then c as int - '0' as int + 52
    else if c == '+' then 62
    else if c == '/' then 63
    else -1
  }

  function Digit(v: Sextet): char {
    if v < 26 then 'A' + v as char
    else if v < 52 then 'a' + (v - 26) as char
    else if v < 62 then '0' + (v - 52) as char
    else if v == 62 then '+'
    else '/'
  }

  function Clean(text: string): string {
    if text == "" then "" else (if IsSpace(text[0]) then "" else [text[0]]) + Clean(text[1..])
  }

  function Padding(clean: string): nat {
    if |clean| >= 2 && clean[|clean| - 2..] == "==" then 2 else if |clean| >= 1 && clean[|clean| - 1] == '=' then 1 else 0
  }

  /** `Uint8Array` truncates the fraction of its length towards zero. */
  function OutputLength(clean: string): nat {
    var n := |clean| * 3 / 4 - Padding(clean);
    if n < 0 then 0 else n
  }

  function CharAt(clean: string, i: nat): char { if i < |clean| then clean[i] else 'A' }

  /** `(first << 18) | (second << 12) | ((third & 63) << 6) | (fourth & 63)`, where an index may be -1. */
  function Chunk(first: int, second: int, third: int, fourth: int): int {
    (if second < 0 then -4096 else first * 262144 + second * 4096) + third % 64 * 64 + fourth % 64
  }

  function High(chunk: int): Byte { chunk / 65536 % 256 }
  function Middle(chunk: int): Byte { chunk / 256 % 256 }
  function Low(chunk: int): Byte { chunk % 256 }

  /** The bytes written for the group of four characters at the front. */
  function GroupBytes(clean: string): (bytes: seq<Byte>)
    ensures 1 <= |bytes| <= 3
  {
    var third, fourth := CharAt(clean, 2), CharAt(clean, 3);
    var chunk := Chunk(IndexOf(CharAt(clean, 0)), IndexOf(CharAt(clean, 1)), IndexOf(third), IndexOf(fourth));
    [High(chunk)] + (if third != '=' then [Middle(chunk)] else []) + if fourth != '=' then [Low(chunk)] else []
  }

  function Rest(clean: string): string { if |clean| <= 4 then "" else clean[4..] }

  /** Everything the loop writes, in order. */
  function Written(clean: string): seq<Byte>
    decreases |clean|
  {
    if clean == "" then [] else GroupBytes(clean) + Written(Rest(clean))
  }

  /** What an array of zeros holds once the bytes have been written from its start. */
  function Fit(bytes: seq<Byte>, n: nat): (r: seq<Byte>)
    ensures |r| == n
  {
    if |bytes| >= n then bytes[..n] else bytes + seq(n - |bytes|, _ => 0)
  }

  function Decoded(text: string): seq<Byte> {
    Fit(Written(Clean(text)), OutputLength(Clean(text)))
  }

  // ----- the encoding -----

  function EncodeTriple(a: Byte, b: Byte, c: Byte): string {
    [Digit(a / 4), Digit(a % 4 * 16 + b / 16), Digit(b % 16 * 4 + c / 64), Digit(c % 64)]
  }

  function Encoded(bytes: seq<Byte>): string
    decreases |bytes|
  {
    if bytes == [] then ""
    else if |bytes| == 1 then EncodeTriple(bytes[0], 0, 0)[..2] + "=="
    else if |bytes| == 2 then EncodeTriple(bytes[0], bytes[1], 0)[..3] + "="
    else EncodeTriple(bytes[0], bytes[1], bytes[2]) + Encoded(bytes[3..])
  }

  function Unpadded(bytes: seq<Byte>): string
    decreases |bytes|
  {
    if |bytes| < 3 then Encoded(bytes)[..|Encoded(bytes)| - Padding(Encoded(bytes))]
    else EncodeTriple(bytes[0], bytes[1], bytes[2]) + Unpadded(bytes[3..])
  }

  lemma DivMod(q: int, r: int)
    ensures 0 <= r < 65536 ==> (q * 65536 + r) / 65536 == q
    ensures 0 <= r < 256 ==> (q * 256 + r) / 256 == q && (q * 256 + r) % 256 == r
  {
  }

  /** The three bytes of a group, from the places of its characters in the alphabet: a character that is
      not in it counts as the last one, and a second one that is not makes the first count so too. */
  lemma GroupIs(first: int, second: int, third: int, fourth: int)
    requires -1 <= first < 64 && -1 <= second < 64 && -1 <= third < 64 && -1 <= fourth < 64
    ensures
      var a := if first < 0 || second < 0 then 63 else first;
      var b := if second < 0 then 63 else second;
      var c := if third < 0 then 63 else third;
      var d := if fourth < 0 then 63 else fourth;
      var chunk := Chunk(first, second, third, fourth);
      High(chunk) == a * 4 + b / 16 && Middle(chunk) == b % 16 * 16 + c / 4 && Low(chunk) == c % 4 * 64 + d
  {
    var a := if first < 0 || second < 0 then 63 else first;
    var b := if second < 0 then 63 else second;
    var c := if third < 0 then 63 else third;
    var d := if fourth < 0 then 63 else fourth;
    ChunkIs(first, second, third, fourth);
    hide Chunk, High, Middle, Low;
    BytesOf(a, b, c, d);
    Wrapped(a * 262144 + b * 4096 + c * 64 + d);
  }

  lemma ChunkIs(first: int, second: int, third: int, fourth: int)
    requires -1 <= first < 64 && -1 <= second < 64 && -1 <= third < 64 && -1 <= fourth < 64
    ensures
      var a := if first < 0 || second < 0 then 63 else first;
      var b := if second < 0 then 63 else second;
      var c := if third < 0 then 63 else third;
      var d := if fourth < 0 then 63 else fourth;
      var bits := a * 262144 + b * 4096 + c * 64 + d;
      Chunk(first, second, third, fourth) == if first < 0 || second < 0 then bits - 16777216 else bits
  {
    assert third % 64 == if third < 0 then 63 else third;
    assert fourth % 64 == if fourth < 0 then 63 else fourth;
  }

  lemma Wrapped(bits: int)
    ensures High(bits - 16777216) == High(bits) && Middle(bits - 16777216) == Middle(bits) && Low(bits - 16777216) == Low(bits)
  {
    assert (bits - 16777216) / 65536 == bits / 65536 - 256;
    assert (bits - 16777216) / 256 == bits / 256 - 65536;
  }

  lemma BytesOf(a: Sextet, b: Sextet, c: Sextet, d: Sextet)
    ensures
      var bits := a * 262144 + b * 4096 + c * 64 + d;
      High(bits) == a * 4 + b / 16 && Middle(bits) == b % 16 * 16 + c / 4 && Low(bits) == c % 4 * 64 + d
  {
    hide High, Middle, Low;
    var b1, b0, c1, c0 := b / 16, b % 16, c / 4, c % 4;
    assert b == b1 * 16 + b0 && c == c1 * 4 + c0;
    ThreeBytes(a * 4 + b1, b0 * 16 + c1, c0 * 64 + d);
  }

  lemma ThreeBytes(high: Byte, middle: Byte, low: Byte)
    ensures
      var bits := high * 65536 + middle * 256 + low;
      High(bits) == high && Middle(bits) == middle && Low(bits) == low
  {
    DivMod(high, middle * 256 + low);
    DivMod(high * 256 + middle, low);
    assert (high * 256 + middle) % 256 == middle;
  }

  lemma HighDecodes(a: Byte, second: Sextet, third: int, fourth: int)
    requires second / 16 == a % 4
    ensures High(Chunk(a / 4, second, third, fourth)) == a
  {
    var rest := second % 16 * 4096 + third % 64 * 64 + fourth % 64;
    assert Chunk(a / 4, second, third, fourth) == a * 65536 + rest;
    DivMod(a, rest);
  }

  lemma MiddleDecodes(a: Byte, b: Byte, second: Sextet, third: Sextet, fourth: int)
    requires second == a % 4 * 16 + b / 16 && third / 4 == b % 16
    ensures Middle(Chunk(a / 4, second, third, fourth)) == b
  {
    var rest := third % 4 * 64 + fourth % 64;
    assert Chunk(a / 4, second, third, fourth) == (a * 256 + b) * 256 + rest;
    DivMod(a * 256 + b, rest);
    DivMod(a, b);
  }

  lemma LowDecodes(a: Byte, b: Byte, c: Byte, second: Sextet, third: Sextet)
    requires second == a % 4 * 16 + b / 16 && third == b % 16 * 4 + c / 64
    ensures Low(Chunk(a / 4, second, third, c % 64)) == c
  {
    assert Chunk(a / 4, second, third, c % 64) == (a * 256 + b) * 256 + c;
    DivMod(a * 256 + b, c);
  }

  lemma TripleDecodes(a: Byte, b: Byte, c: Byte, third: int, fourth: int)
    ensures
      var chunk := Chunk(a / 4, a % 4 * 16 + b / 16, third, fourth);
      && High(chunk) == a
      && (third == b % 16 * 4 + c / 64 ==> Middle(chunk) == b && (fourth == c % 64 ==> Low(chunk) == c))
  {
    var second := a % 4 * 16 + b / 16;
    hide High, Middle, Low, Chunk;
    HighDecodes(a, second, third, fourth);
    if third == b % 16 * 4 + c / 64 {
      MiddleDecodes(a, b, second, third, fourth);
      LowDecodes(a, b, c, second, third);
    }
  }

  lemma DigitIndex(v: Sextet)
    ensures IndexOf(Digit(v)) == v && Digit(v) != '=' && !IsSpace(Digit(v))
  {
  }

  lemma FullGroupDecodes(a: Byte, b: Byte, c: Byte, tail: string)
    ensures GroupBytes(EncodeTriple(a, b, c) + tail) == [a, b, c]
  {
    var second, third, fourth := a % 4 * 16 + b / 16, b % 16 * 4 + c / 64, c % 64;
    DigitIndex(a / 4);
    DigitIndex(second);
    DigitIndex(third);
    DigitIndex(fourth);
    TripleDecodes(a, b, c, third, fourth);
    hide Chunk, High, Middle, Low, IndexOf, Digit;
  }

  lemma OneByteDecodes(a: Byte)
    ensures
      var digits := EncodeTriple(a, 0, 0)[..2];
      GroupBytes(digits + "==") == [a] && |GroupBytes(digits)| == 3 && GroupBytes(digits)[0] == a
  {
    DigitIndex(a / 4);
    DigitIndex(a % 4 * 16);
    TripleDecodes(a, 0, 0, -1, -1);
    TripleDecodes(a, 0, 0, 0, 0);
    hide Chunk, High, Middle, Low, Digit;
  }

  lemma TwoBytesDecode(a: Byte, b: Byte)
    ensures
      var digits := EncodeTriple(a, b, 0)[..3];
      GroupBytes(digits + "=") == [a, b] && |GroupBytes(digits)| == 3 && GroupBytes(digits)[..2] == [a, b]
  {
    DigitIndex(a / 4);
    DigitIndex(a % 4 * 16 + b / 16);
    DigitIndex(b % 16 * 4);
    TripleDecodes(a, b, 0, b % 16 * 4, -1);
    TripleDecodes(a, b, 0, b % 16 * 4, 0);
    hide Chunk, High, Middle, Low, Digit;
  }

  lemma TripleLength(a: Byte, b: Byte, c: Byte)
    ensures |EncodeTriple(a, b, c)| == 4
    ensures forall i :: 0 <= i < 4 ==> EncodeTriple(a, b, c)[i] != '=' && !IsSpace(EncodeTriple(a, b, c)[i])
  {
    DigitIndex(a / 4);
    DigitIndex(a % 4 * 16 + b / 16);
    DigitIndex(b % 16 * 4 + c / 64);
    DigitIndex(c % 64);
  }

  lemma PaddingOfRest(group: string, rest: string)
    requires |group| == 4 && group[2] != '=' && group[3] != '='
    ensures |rest| != 1 ==> Padding(group + rest) == Padding(rest)
  {
    var all := group + rest;
    if |rest| >= 2 {
      assert all[|all| - 2..] == rest[|rest| - 2..];
    } else if |rest| == 0 {
      assert all == group;
      assert all[2..][1] == group[3];
    }
  }

  lemma PaddingTwo(digits: string)
    ensures Padding(digits + "==") == 2
  {
    assert (digits + "==")[|digits|..] == "==";
  }

  lemma PaddingOne(digits: string)
    requires digits != "" && digits[|digits| - 1] != '='
    ensures Padding(digits + "=") == 1
  {
    var clean := digits + "=";
    assert clean[|clean| - 2..][0] == digits[|digits| - 1] && "=="[0] == '=';
  }

  lemma PaddingNone(digits: string)
    requires digits == "" || digits[|digits| - 1] != '='
    ensures Padding(digits) == 0
  {
    if |digits| >= 2 {
      assert digits[|digits| - 2..][1] == digits[|digits| - 1] && "=="[1] == '=';
    }
  }

  lemma PaddingOfEnd(digits: string)
    requires forall i :: 0 <= i < |digits| ==> digits[i] != '='
    ensures Padding(digits) == 0 && Padding(digits + "==") == 2
    ensures digits != "" ==> Padding(digits + "=") == 1
  {
    hide Padding;
    PaddingNone(digits);
    PaddingTwo(digits);
    if digits != "" {
      PaddingOne(digits);
    }
  }

  lemma WrittenShort(clean: string)
    requires 1 <= |clean| <= 4
    ensures Written(clean) == GroupBytes(clean)
  {
    assert Written("") == [];
  }

  /** The last one or two bytes, with and without padding. */
  lemma LastGroup(bytes: seq<Byte>)
    requires 1 <= |bytes| <= 2
    ensures Written(Encoded(bytes)) == bytes && |Encoded(bytes)| * 3 / 4 - Padding(Encoded(bytes)) == |bytes| && |Encoded(bytes)| == 4
    ensures bytes <= Written(Unpadded(bytes)) && Padding(Unpadded(bytes)) == 0
    ensures |Unpadded(bytes)| == |bytes| + 1
  {
    hide GroupBytes, EncodeTriple, Padding, Written;
    var n := |bytes|;
    var a, b := bytes[0], if n == 2 then bytes[1] else 0;
    TripleLength(a, b, 0);
    var digits := EncodeTriple(a, b, 0)[..n + 1];
    if n == 2 {
      TwoBytesDecode(a, b);
    } else {
      OneByteDecodes(a);
    }
    PaddingOfEnd(digits);
    WrittenShort(digits);
    WrittenShort(Encoded(bytes));
    assert Encoded(bytes) == digits + if n == 2 then "=" else "==";
    assert Unpadded(bytes) == digits;
    assert bytes == if n == 2 then [a, b] else [a];
  }

  /** The padded encoding makes the loop write the bytes and nothing else. */
  lemma {:induction false} WrittenEncoded(bytes: seq<Byte>)
    ensures Written(Encoded(bytes)) == bytes
    ensures |Encoded(bytes)| * 3 / 4 - Padding(Encoded(bytes)) == |bytes| && |Encoded(bytes)| % 4 == 0
    decreases |bytes|
  {
    hide GroupBytes, EncodeTriple, Padding, Written;
    if |bytes| >= 3 {
      WrittenEncoded(bytes[3..]);
      var triple, rest := EncodeTriple(bytes[0], bytes[1], bytes[2]), Encoded(bytes[3..]);
      TripleLength(bytes[0], bytes[1], bytes[2]);
      WrittenTriple(bytes[0], bytes[1], bytes[2], rest);
      assert Encoded(bytes) == triple + rest;
      assert bytes == [bytes[0], bytes[1], bytes[2]] + bytes[3..];
      PaddingOfRest(triple, rest);
    } else if bytes != [] {
      LastGroup(bytes);
    } else {
      NoBytes();
    }
  }

  lemma WrittenTriple(a: Byte, b: Byte, c: Byte, rest: string)
    ensures Written(EncodeTriple(a, b, c) + rest) == [a, b, c] + Written(rest)
  {
    hide GroupBytes, EncodeTriple;
    TripleLength(a, b, c);
    FullGroupDecodes(a, b, c, rest);
    assert Rest(EncodeTriple(a, b, c) + rest) == rest;
  }

  lemma UnpaddedStep(bytes: seq<Byte>)
    requires |bytes| >= 3 && |Unpadded(bytes[3..])| != 1 && bytes[3..] <= Written(Unpadded(bytes[3..]))
    ensures |Unpadded(bytes)| == 4 + |Unpadded(bytes[3..])|
    ensures Padding(Unpadded(bytes)) == Padding(Unpadded(bytes[3..]))
    ensures bytes <= Written(Unpadded(bytes))
  {
    hide *;
    var triple, rest := EncodeTriple(bytes[0], bytes[1], bytes[2]), Unpadded(bytes[3..]);
    UnpaddedIs(bytes);
    TripleLength(bytes[0], bytes[1], bytes[2]);
    WrittenTriple(bytes[0], bytes[1], bytes[2], rest);
    PaddingOfRest(triple, rest);
    PrefixAppend([bytes[0], bytes[1], bytes[2]], bytes[3..], Written(rest));
    assert bytes == [bytes[0], bytes[1], bytes[2]] + bytes[3..];
  }

  lemma UnpaddedIs(bytes: seq<Byte>)
    requires |bytes| >= 3
    ensures Unpadded(bytes) == EncodeTriple(bytes[0], bytes[1], bytes[2]) + Unpadded(bytes[3..])
  {
  }

  lemma PrefixAppend(head: seq<Byte>, short: seq<Byte>, long: seq<Byte>)
    requires short <= long
    ensures head + short <= head + long
  {
  }

  lemma NoBytes()
    ensures Encoded([]) == Unpadded([]) == "" && Written("") == [] && Padding("") == 0
  {
  }

  /** Without its padding the encoding makes the loop write up to two bytes more, and exactly those
      fall outside the array. */
  lemma {:induction false} WrittenUnpadded(bytes: seq<Byte>)
    ensures bytes <= Written(Unpadded(bytes))
    ensures |Unpadded(bytes)| * 3 / 4 == |bytes| && |Unpadded(bytes)| % 4 != 1 && Padding(Unpadded(bytes)) == 0
    decreases |bytes|
  {
    hide GroupBytes, EncodeTriple, Padding, Written, Unpadded;
    if |bytes| >= 3 {
      WrittenUnpadded(bytes[3..]);
      UnpaddedStep(bytes);
    } else if bytes != [] {
      LastGroup(bytes);
    } else {
      NoBytes();
    }
  }

  /** Decoding the encoding of any bytes, with its padding or without and with any white space
      around or inside it, returns the bytes; with the padding every byte of the array is written
      once and none outside it. */
  lemma RoundTrip(bytes: seq<Byte>, text: string)
    requires Clean(text) == Encoded(bytes) || Clean(text) == Unpadded(bytes)
    ensures Decoded(text) == bytes
    ensures Clean(text) == Encoded(bytes) ==> |Written(Clean(text))| == OutputLength(Clean(text))
  {
    hide Clean, Written, Encoded, Unpadded, Padding;
    WrittenEncoded(bytes);
    WrittenUnpadded(bytes);
  }

  lemma {:induction false} CleanKeeps(text: string)
    requires forall i :: 0 <= i < |text| ==> !IsSpace(text[i])
    ensures Clean(text) == text
  {
    if text != "" {
      CleanKeeps(text[1..]);
    }
  }

  lemma {:induction false} EncodedIsClean(bytes: seq<Byte>)
    ensures Clean(Encoded(bytes)) == Encoded(bytes)
  {
    NoSpaceInEncoded(bytes);
    CleanKeeps(Encoded(bytes));
  }

  lemma {:induction false} NoSpaceInEncoded(bytes: seq<Byte>)
    ensures forall i :: 0 <= i < |Encoded(bytes)| ==> !IsSpace(Encoded(bytes)[i])
    decreases |bytes|
  {
    hide EncodeTriple;
    if |bytes| >= 3 {
      TripleLength(bytes[0], bytes[1], bytes[2]);
      NoSpaceInEncoded(bytes[3..]);
    } else if |bytes| == 2 {
      TripleLength(bytes[0], bytes[1], 0);
    } else if |bytes| == 1 {
      TripleLength(bytes[0], 0, 0);
    }
  }

  /** Encoding and decoding returns the bytes. */
  lemma DecodeEncoded(bytes: seq<Byte>)
    ensures Decoded(Encoded(bytes)) == bytes
  {
    EncodedIsClean(bytes);
    RoundTrip(bytes, Encoded(bytes));
    hide Decoded, Encoded, Clean;
  }

  /** So no two byte sequences share an encoding. */
  lemma EncodedInjective(a: seq<Byte>, b: seq<Byte>)
    requires Encoded(a) == Encoded(b)
    ensures a == b
  {
    WrittenEncoded(a);
    WrittenEncoded(b);
  }

  // ----- the loop -----

  method Strip(text: string) returns (clean: string)
    ensures clean == Clean(text)
  {
    hide IsSpace;
    clean := "";
    var i := 0;
    while i < |text|
      invariant 0 <= i <= |text|
      invariant clean + Clean(text[i..]) == Clean(text)
    {
      if !IsSpace(text[i]) {
        clean := clean + [text[i]];
      }
      assert text[i..][1..] == text[i + 1..];
      i := i + 1;
    }
  }

  function From(clean: string, index: nat): string { if index <= |clean| then clean[index..] else "" }

  lemma WrittenStep(clean: string, index: nat)
    requires index < |clean|
    ensures Written(From(clean, index)) == GroupBytes(From(clean, index)) + Written(From(clean, index + 4))
  {
    assert Rest(From(clean, index)) == From(clean, index + 4);
  }

  lemma WrittenEnds(clean: string, index: nat)
    ensures From(clean, 0) == clean
    ensures index >= |clean| ==> Written(From(clean, index)) == []
  {
  }

  lemma FitNothing(bytes: seq<Byte>)
    requires forall i :: 0 <= i < |bytes| ==> bytes[i] == 0
    ensures bytes == Fit([], |bytes|)
  {
  }

  method Base64ToBytes(base64: string) returns (bytes: array<Byte>)
    ensures fresh(bytes) && bytes[..] == Decoded(base64)
  {
    hide *;
    var clean := Strip(base64);
    bytes := new Byte[OutputLength(clean)](_ => 0);
    ghost var written: seq<Byte> := [];
    var byteIndex := 0;
    var index := 0;
    FitNothing(bytes[..]);
    WrittenEnds(clean, 0);
    while index < |clean|
      invariant 0 <= index && byteIndex == |written|
      invariant written + Written(From(clean, index)) == Written(clean)
      invariant bytes[..] == Fit(written, bytes.Length)
    {
      byteIndex := PutGroup(bytes, byteIndex, clean, index, written);
      WrittenStep(clean, index);
      written := written + GroupBytes(From(clean, index));
      index := index + 4;
    }
    WrittenEnds(clean, index);
    assert written == Written(clean);
    DecodedIs(base64, clean, bytes[..]);
  }

  lemma DecodedIs(text: string, clean: string, bytes: seq<Byte>)
    requires clean == Clean(text) && |bytes| == OutputLength(clean) && bytes == Fit(Written(clean), |bytes|)
    ensures bytes == Decoded(text)
  {
  }

  /** The body of the loop: one group of four characters. */
  method PutGroup(bytes: array<Byte>, start: nat, clean: string, index: nat, ghost written: seq<Byte>) returns (byteIndex: nat)
    requires start == |written| && index < |clean| && bytes[..] == Fit(written, bytes.Length)
    modifies bytes
    ensures byteIndex == start + |GroupBytes(From(clean, index))|
    ensures bytes[..] == Fit(written + GroupBytes(From(clean, index)), bytes.Length)
  {
    hide Fit, IndexOf, High, Middle, Low;
    var first := IndexOf(CharAt(clean, index));
    var second := IndexOf(CharAt(clean, index + 1));
    var thirdChar := CharAt(clean, index + 2);
    var fourthChar := CharAt(clean, index + 3);
    var chunk := Chunk(first, second, IndexOf(thirdChar), IndexOf(fourthChar));
    byteIndex := start;
    ghost var now := written;
    Put(bytes, byteIndex, High(chunk), now);
    byteIndex, now := byteIndex + 1, now + [High(chunk)];
    if thirdChar != '=' {
      Put(bytes, byteIndex, Middle(chunk), now);
      byteIndex, now := byteIndex + 1, now + [Middle(chunk)];
    }
    if fourthChar != '=' {
      Put(bytes, byteIndex, Low(chunk), now);
      byteIndex, now := byteIndex + 1, now + [Low(chunk)];
    }
    assert now == written + GroupBytes(From(clean, index));
  }

  /** `bytes[i] = value` on a typed array. */
  method Put(bytes: array<Byte>, i: nat, value: Byte, ghost written: seq<Byte>)
    requires i == |written| && bytes[..] == Fit(written, bytes.Length)
    modifies bytes
    ensures bytes[..] == Fit(written + [value], bytes.Length)
  {
    if i < bytes.Length {
      bytes[i] := value;
    }
  }
}
