/**
 * The lower-case base36 block codec: 7 bytes become 11 characters, and a shorter tail becomes as many
 * characters as its bytes need.
 */
module Base36 {
  import opened Wrappers
  import opened Numerals

  type u64 = x: int | 0 <= x < 0x1_0000_0000_0000_0000

  // ---------------------------------------------------------------------
  // Characters
  // ---------------------------------------------------------------------

  /** lowerBase36Alphabet. */
  function CharOf(d: nat): (c: byte)
    requires d < 36
  {
    if d < 10 then 48 + d else 87 + d
  }

  /** lowerBase36DecodeMap: either case of a letter is accepted, and 255 marks every other byte. */
  function DigitOf(c: byte): nat {
    if 48 <= c <= 57 then c - 48
    else if 97 <= c <= 122 then c - 87
    else if 65 <= c <= 90 then c - 55
    else 255
  }

  function LowerChar(c: byte): byte {
    if 65 <= c <= 90 then c + 32 else c
  }

  function Lower(s: seq<byte>): (r: seq<byte>)
    ensures |r| == |s| && forall i :: 0 <= i < |s| ==> r[i] == LowerChar(s[i])
  {
    seq(|s|, i requires 0 <= i < |s| => LowerChar(s[i]))
  }

  predicate Readable(s: seq<byte>) {
    forall i :: 0 <= i < |s| ==> DigitOf(s[i]) != 255
  }

  function CharsOf(d: seq<nat>): (s: seq<byte>)
    requires AreDigits(36, d)
    ensures |s| == |d| && forall i :: 0 <= i < |d| ==> s[i] == CharOf(d[i])
  {
    seq(|d|, i requires 0 <= i < |d| => CharOf(d[i]))
  }

  function DigitsIn(s: seq<byte>): (d: seq<nat>)
    ensures |d| == |s| && forall i :: 0 <= i < |s| ==> d[i] == DigitOf(s[i])
  {
    seq(|s|, i requires 0 <= i < |s| => DigitOf(s[i]))
  }

  lemma ReadBack(d: seq<nat>)
    requires AreDigits(36, d)
    ensures Readable(CharsOf(d)) && DigitsIn(CharsOf(d)) == d
  {
  }

  lemma WriteBack(s: seq<byte>)
    requires Readable(s)
    ensures AreDigits(36, DigitsIn(s)) && CharsOf(DigitsIn(s)) == Lower(s)
  {
  }

  // ---------------------------------------------------------------------
  // Lengths
  // ---------------------------------------------------------------------

  /** lowerBase36EncodedCharsByBytes: the characters for a block of `n` bytes. */
  function CharsByBytes(n: nat): nat
    requires n <= 7
  {
    match n
    case 0 => 0 case 1 => 2 case 2 => 4 case 3 => 5
    case 4 => 7 case 5 => 8 case 6 => 10 case _ => 11
  }

  /** lowerBase36DecodedBytesByChars: the bytes in a block of `c` characters, 0 when there is no such block. */
  function BytesByChars(c: nat): nat
    requires c <= 11
  {
    match c
    case 2 => 1 case 4 => 2 case 5 => 3 case 7 => 4
    case 8 => 5 case 10 => 6 case 11 => 7 case _ => 0
  }

  function EncodedLen(n: nat): nat {
    n / 7 * 11 + CharsByBytes(n % 7)
  }

  function DecodedLen(m: nat): Result<nat> {
    var rem := m % 11;
    if rem != 0 && BytesByChars(rem) == 0 then Err else Ok(m / 11 * 7 + BytesByChars(rem))
  }

  /** The two length functions are inverse, and the lengths no encoding has are refused. */
  lemma LengthsInvert(n: nat)
    ensures DecodedLen(EncodedLen(n)) == Ok(n)
  {
    assert EncodedLen(n) / 11 == n / 7 && EncodedLen(n) % 11 == CharsByBytes(n % 7);
  }

  lemma RefusedLengths(m: nat)
    ensures DecodedLen(m).Err? <==> m % 11 in {1, 3, 6, 9}
    ensures DecodedLen(m).Ok? ==> EncodedLen(DecodedLen(m).value) == m
  {
    if DecodedLen(m).Ok? {
      var n := DecodedLen(m).value;
      assert n / 7 == m / 11 && n % 7 == BytesByChars(m % 11);
    }
  }

  // ---------------------------------------------------------------------
  // Blocks
  // ---------------------------------------------------------------------

  function EncodeBlock(data: seq<byte>): (s: seq<byte>)
    requires |data| <= 7
    ensures |s| == CharsByBytes(|data|)
  {
    CharsOf(Digits(36, Value(256, data), CharsByBytes(|data|)))
  }

  lemma Powers36()
    ensures Pow(36, 2) == 1296 && Pow(36, 4) == 1_679_616 && Pow(36, 5) == 60_466_176
    ensures Pow(36, 7) == 78_364_164_096 && Pow(36, 8) == 2_821_109_907_456
    ensures Pow(36, 10) == 3_656_158_440_062_976 && Pow(36, 11) == 131_621_703_842_267_136
  {
    assert Pow(36, 0) == 1 && Pow(36, 1) == 36 && Pow(36, 2) == 1296 && Pow(36, 3) == 46_656;
    assert Pow(36, 4) == 1_679_616 && Pow(36, 5) == 60_466_176 && Pow(36, 6) == 2_176_782_336;
    assert Pow(36, 7) == 78_364_164_096 && Pow(36, 8) == 2_821_109_907_456 && Pow(36, 9) == 101_559_956_668_416;
  }

  lemma Powers256()
    ensures Pow(256, 0) == 1 && Pow(256, 1) == 256 && Pow(256, 2) == 65_536 && Pow(256, 3) == 16_777_216
    ensures Pow(256, 4) == 4_294_967_296 && Pow(256, 5) == 1_099_511_627_776
    ensures Pow(256, 6) == 281_474_976_710_656 && Pow(256, 7) == 72_057_594_037_927_936
  {
    assert Pow(256, 0) == 1 && Pow(256, 1) == 256 && Pow(256, 2) == 65_536 && Pow(256, 3) == 16_777_216;
    assert Pow(256, 4) == 4_294_967_296 && Pow(256, 5) == 1_099_511_627_776;
  }

  /** A block of `n` bytes fits the characters it is given, and those fit 64 bits. */
  lemma BlockFits(n: nat)
    requires n <= 7
    ensures Pow(256, n) <= Pow(36, CharsByBytes(n)) < 0x1_0000_0000_0000_0000
  {
    Powers36();
    Powers256();
  }

  /** A block of characters read back: the low `n` bytes of its value. */
  function DecodeBlock(s: seq<byte>, n: nat): (data: seq<byte>)
    ensures |data| == n
  {
    Digits(256, Value(36, DigitsIn(s)), n)
  }

  lemma BlockRoundTrip(data: seq<byte>)
    requires |data| <= 7
    ensures Readable(EncodeBlock(data)) && DecodeBlock(EncodeBlock(data), |data|) == data
  {
    var v, n := Value(256, data), CharsByBytes(|data|);
    ValueFits(256, data);
    BlockFits(|data|);
    ReadBack(Digits(36, v, n));
    ValueOfDigits(36, v, n);
    DigitsOfValue(256, data);
  }

  predicate FitsBytes(s: seq<byte>, n: nat) {
    Value(36, DigitsIn(s)) < Pow(256, n)
  }

  /** A block of characters is what the codec writes for the bytes it reads from it exactly when its value fits them. */
  lemma BlockCanonical(s: seq<byte>, n: nat)
    requires n <= 7 && |s| == CharsByBytes(n) && Readable(s)
    ensures EncodeBlock(DecodeBlock(s, n)) == Lower(s) <==> FitsBytes(s, n)
  {
    var v := Value(36, DigitsIn(s));
    WriteBack(s);
    ValueFits(36, DigitsIn(s));
    DigitsOfValue(36, DigitsIn(s));
    var w := Value(256, Digits(256, v, n));
    ValueFits(256, Digits(256, v, n));
    BlockFits(n);
    if v < Pow(256, n) {
      ValueOfDigits(256, v, n);
    } else if EncodeBlock(DecodeBlock(s, n)) == Lower(s) {
      ReadBack(Digits(36, w, |s|));
      ReadBack(DigitsIn(s));
      ValueOfDigits(36, w, |s|);
      assert false;
    }
  }

  // ---------------------------------------------------------------------
  // The codec
  // ---------------------------------------------------------------------

  function Encode(data: seq<byte>): (s: seq<byte>) {
    if |data| < 7 then EncodeBlock(data) else EncodeBlock(data[..7]) + Encode(data[7..])
  }

  /** lowerBase36NextDecodeBlock: bytes and characters of the next block. */
  function NextBlock(remaining: nat): (nat, nat) {
    if remaining >= 11 then (7, 11) else (BytesByChars(remaining), remaining)
  }

  function DecodeBlocks(s: seq<byte>): Result<seq<byte>> {
    if s == [] then Ok([])
    else
      var (n, c) := NextBlock(|s|);
      if !Readable(s[..c]) then Err
      else
        match DecodeBlocks(s[c..])
        case Err => Err
        case Ok(rest) => Ok(DecodeBlock(s[..c], n) + rest)
  }

  function Decode(s: seq<byte>): Result<seq<byte>> {
    if DecodedLen(|s|).Err? then Err else DecodeBlocks(s)
  }

  lemma OneBlockMore(n: nat)
    ensures EncodedLen(n + 7) == EncodedLen(n) + 11
  {
    assert (n + 7) / 7 == n / 7 + 1 && (n + 7) % 7 == n % 7;
  }

  lemma {:induction false} EncodeLength(data: seq<byte>)
    ensures |Encode(data)| == EncodedLen(|data|)
    decreases |data|
  {
    if |data| >= 7 {
      EncodeLength(data[7..]);
      OneBlockMore(|data| - 7);
    }
  }

  /** A last block shorter than 11 characters is decoded on its own. */
  lemma TailDecodes(s: seq<byte>)
    requires 0 < |s| < 11 && Readable(s)
    ensures DecodeBlocks(s) == Ok(DecodeBlock(s, BytesByChars(|s|)))
  {
    assert s[..|s|] == s && s[|s|..] == [];
    assert DecodeBlocks([]) == Ok([]);
    assert DecodeBlock(s, BytesByChars(|s|)) + [] == DecodeBlock(s, BytesByChars(|s|));
  }

  lemma {:induction false} BlocksRoundTrip(data: seq<byte>)
    ensures DecodeBlocks(Encode(data)) == Ok(data)
    decreases |data|
  {
    if data == [] {
      assert Encode(data) == [];
    } else if |data| < 7 {
      BlockRoundTrip(data);
      TailDecodes(EncodeBlock(data));
    } else {
      var s, rest := EncodeBlock(data[..7]), Encode(data[7..]);
      BlocksRoundTrip(data[7..]);
      BlockRoundTrip(data[..7]);
      assert (s + rest)[..11] == s && (s + rest)[11..] == rest;
      assert data == data[..7] + data[7..];
    }
  }

  /** Decoding undoes encoding, for every byte string. */
  lemma RoundTrip(data: seq<byte>)
    ensures Decode(Encode(data)) == Ok(data)
  {
    EncodeLength(data);
    LengthsInvert(|data|);
    BlocksRoundTrip(data);
  }

  lemma SameDigits(s: seq<byte>, t: seq<byte>)
    requires Lower(s) == Lower(t)
    ensures Readable(s) == Readable(t) && DigitsIn(s) == DigitsIn(t)
  {
    forall i | 0 <= i < |s| ensures DigitOf(s[i]) == DigitOf(t[i]) {
      assert Lower(s)[i] == Lower(t)[i];
    }
  }

  lemma {:induction false} CaseBlindBlocks(s: seq<byte>, t: seq<byte>)
    requires Lower(s) == Lower(t)
    ensures DecodeBlocks(s) == DecodeBlocks(t)
    decreases |s|
  {
    assert |s| == |Lower(s)| == |t|;
    if s != [] {
      var c := NextBlock(|s|).1;
      assert Lower(s[..c]) == Lower(s)[..c] && Lower(t[..c]) == Lower(t)[..c];
      assert Lower(s[c..]) == Lower(s)[c..] && Lower(t[c..]) == Lower(t)[c..];
      SameDigits(s[..c], t[..c]);
      CaseBlindBlocks(s[c..], t[c..]);
    }
  }

  /** So does decoding it after any letters changed case: decoding does not see the case of letters. */
  lemma RoundTripAnyCase(data: seq<byte>, t: seq<byte>)
    requires Lower(t) == Encode(data)
    ensures Decode(t) == Ok(data)
  {
    RoundTrip(data);
    assert |t| == |Lower(t)|;
    EncodeIsLower(data);
    CaseBlindBlocks(t, Encode(data));
  }

  lemma {:induction false} EncodeIsLower(data: seq<byte>)
    ensures Lower(Encode(data)) == Encode(data)
    decreases |data|
  {
    if |data| >= 7 { EncodeIsLower(data[7..]); }
  }

  /** Every block's value fits the bytes it stands for. */
  predicate Canonical(s: seq<byte>) {
    s == [] ||
    var (n, c) := NextBlock(|s|);
    FitsBytes(s[..c], n) && Canonical(s[c..])
  }

  lemma CanonicalTail(s: seq<byte>)
    requires 0 < |s| < 11
    ensures Canonical(s) <==> FitsBytes(s, BytesByChars(|s|))
  {
    assert s[..|s|] == s && s[|s|..] == [];
    assert Canonical([]);
  }

  lemma EncodeTail(data: seq<byte>)
    requires |data| < 7
    ensures Encode(data) == EncodeBlock(data)
  {
  }

  lemma TailShape(m: nat)
    requires 0 < m < 11 && DecodedLen(m).Ok?
    ensures 0 < BytesByChars(m) < 7 && CharsByBytes(BytesByChars(m)) == m
    ensures DecodedLen(m).value == BytesByChars(m)
  {
  }

  lemma TailCanonical(s: seq<byte>, n: nat)
    requires 0 < |s| < 11 && Readable(s)
    requires n == BytesByChars(|s|) && n < 7 && CharsByBytes(n) == |s|
    ensures DecodeBlocks(s) == Ok(DecodeBlock(s, n))
    ensures Encode(DecodeBlock(s, n)) == Lower(s) <==> Canonical(s)
  {
    TailDecodes(s);
    BlockCanonical(s, n);
    EncodeTail(DecodeBlock(s, n));
    CanonicalTail(s);
  }

  lemma SplitEqual(a: seq<byte>, b: seq<byte>, c: seq<byte>, d: seq<byte>)
    requires |a| == |c|
    ensures a + b == c + d <==> a == c && b == d
  {
    assert (a + b)[..|a|] == a && (a + b)[|a|..] == b && (c + d)[..|a|] == c && (c + d)[|a|..] == d;
  }

  lemma EncodeHead(head: seq<byte>, rest: seq<byte>)
    requires |head| == 7
    ensures Encode(head + rest) == EncodeBlock(head) + Encode(rest)
  {
    assert (head + rest)[..7] == head && (head + rest)[7..] == rest;
  }

  lemma {:induction false} BlocksCanonical(s: seq<byte>)
    requires DecodedLen(|s|).Ok? && DecodeBlocks(s).Ok?
    ensures |DecodeBlocks(s).value| == DecodedLen(|s|).value
    ensures Encode(DecodeBlocks(s).value) == Lower(s) <==> Canonical(s)
    decreases |s|
  {
    if s == [] {
    } else if |s| < 11 {
      assert s[..|s|] == s;
      TailShape(|s|);
      TailCanonical(s, BytesByChars(|s|));
    } else {
      HeadDecodes(s);
      BlocksCanonical(s[11..]);
      HeadCanonical(s, DecodeBlock(s[..11], 7), DecodeBlocks(s[11..]).value);
    }
  }

  /** A first block of 11 characters and the rest are decoded one after the other. */
  lemma HeadDecodes(s: seq<byte>)
    requires |s| >= 11 && DecodedLen(|s|).Ok? && DecodeBlocks(s).Ok?
    ensures Readable(s[..11]) && DecodeBlocks(s[11..]).Ok?
    ensures DecodeBlocks(s).value == DecodeBlock(s[..11], 7) + DecodeBlocks(s[11..]).value
    ensures DecodedLen(|s| - 11).Ok? && DecodedLen(|s|).value == 7 + DecodedLen(|s| - 11).value
  {
    assert (|s| - 11) % 11 == |s| % 11 && (|s| - 11) / 11 == |s| / 11 - 1;
  }

  lemma HeadCanonical(s: seq<byte>, head: seq<byte>, rest: seq<byte>)
    requires |s| >= 11 && Readable(s[..11]) && head == DecodeBlock(s[..11], 7)
    requires Encode(rest) == Lower(s[11..]) <==> Canonical(s[11..])
    ensures Encode(head + rest) == Lower(s) <==> Canonical(s)
  {
    BlockCanonical(s[..11], 7);
    EncodeHead(head, rest);
    assert Lower(s) == Lower(s[..11]) + Lower(s[11..]);
    SplitEqual(EncodeBlock(head), Encode(rest), Lower(s[..11]), Lower(s[11..]));
    assert NextBlock(|s|) == (7, 11);
  }

  /** Encoding what was decoded gives the lower-cased input back exactly when every block is canonical. */
  lemma ReencodeExact(s: seq<byte>)
    requires Decode(s).Ok?
    ensures Encode(Decode(s).value) == Lower(s) <==> Canonical(s)
    ensures |Decode(s).value| == DecodedLen(|s|).value
  {
    BlocksCanonical(s);
  }
}
