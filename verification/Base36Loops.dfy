/** The loops of the base36 codec: they fill buffers in place, and are proved against the functions in Base36. */
module Base36Loops {
  import opened Wrappers
  import opened Numerals
  import opened Base36

  lemma DigitsStep(b: nat, v: nat, n: nat)
    requires IsBase(b) && n > 0
    ensures Digits(b, v, n)[..n - 1] == Digits(b, v / b, n - 1) && Digits(b, v, n)[n - 1] == v % b
  {
  }

  lemma CharsAppend(v: nat, i: nat, tail: seq<byte>)
    requires i > 0
    ensures CharsOf(Digits(36, v, i)) + tail == CharsOf(Digits(36, v / 36, i - 1)) + ([CharOf(v % 36)] + tail)
  {
    DigitsStep(36, v, i);
    assert CharsOf(Digits(36, v, i)) == CharsOf(Digits(36, v / 36, i - 1)) + [CharOf(v % 36)];
  }

  /** writeBase36Block: the characters of `val`, filled in from the right. */
  method WriteBlock(dst: array<byte>, at: nat, val: u64, count: nat)
    requires at + count <= dst.Length
    modifies dst
    ensures dst[at..at + count] == CharsOf(Digits(36, val, count))
    ensures dst[..at] == old(dst[..at]) && dst[at + count..] == old(dst[at + count..])
  {
    var i: nat, rest: nat := count, val;
    ghost var tail: seq<byte> := [];
    assert CharsOf(Digits(36, val, count)) + tail == CharsOf(Digits(36, val, count));
    while i > 0
      invariant i <= count && dst[at + i..at + count] == tail
      invariant CharsOf(Digits(36, rest, i)) + tail == CharsOf(Digits(36, val, count))
      invariant dst[..at] == old(dst[..at]) && dst[at + count..] == old(dst[at + count..])
    {
      CharsAppend(rest, i, tail);
      i := i - 1;
      dst[at + i] := CharOf(rest % 36);
      assert dst[at + i..at + count] == [dst[at + i]] + dst[at + i + 1..at + count];
      tail := [CharOf(rest % 36)] + tail;
      rest := rest / 36;
    }
    assert [] + tail == tail;
  }

  lemma DigitsAppend(v: nat, i: nat, tail: seq<byte>)
    requires i > 0
    ensures Digits(256, v, i) + tail == Digits(256, v / 256, i - 1) + ([v % 256] + tail)
  {
    DigitsStep(256, v, i);
    assert Digits(256, v, i) == Digits(256, v / 256, i - 1) + [v % 256];
  }

  /** The inner loop of DecodeLowerBase36: the low `count` bytes of `val`, filled in from the right. */
  method WriteBytes(dst: array<byte>, at: nat, val: u64, count: nat)
    requires at + count <= dst.Length
    modifies dst
    ensures dst[at..at + count] == Digits(256, val, count)
    ensures dst[..at] == old(dst[..at])
  {
    var i: nat, rest: nat := count, val;
    ghost var tail: seq<byte> := [];
    assert Digits(256, val, count) + tail == Digits(256, val, count);
    while i > 0
      invariant i <= count && dst[at + i..at + count] == tail
      invariant Digits(256, rest, i) + tail == Digits(256, val, count)
      invariant dst[..at] == old(dst[..at])
    {
      DigitsAppend(rest, i, tail);
      i := i - 1;
      dst[at + i] := rest % 256;
      assert dst[at + i..at + count] == [dst[at + i]] + dst[at + i + 1..at + count];
      tail := [rest % 256] + tail;
      rest := rest / 256;
    }
    assert [] + tail == tail;
  }

  lemma ValueStep(b: nat, d: seq<nat>, i: nat)
    requires IsBase(b) && i < |d|
    ensures Value(b, d[..i + 1]) == b * Value(b, d[..i]) + d[i]
  {
    assert d[..i + 1][..i] == d[..i];
  }

  lemma {:induction false} PowGrows(b: nat, m: nat, n: nat)
    requires IsBase(b) && m <= n
    ensures Pow(b, m) <= Pow(b, n)
    decreases n - m
  {
    if m < n {
      PowGrows(b, m + 1, n);
      if b == 36 {} else {}
    }
  }

  /** No prefix of a block overflows 64 bits while it is accumulated. */
  lemma PrefixFits(b: nat, d: seq<nat>, i: nat)
    requires IsBase(b) && AreDigits(b, d) && i <= |d| <= (if b == 36 then 11 else 7)
    ensures Value(b, d[..i]) < 0x1_0000_0000_0000_0000
  {
    ValueFits(b, d[..i]);
    PowGrows(b, i, if b == 36 then 11 else 7);
    BlockFits(7);
  }

  /** The value of up to seven bytes, by shifts. */
  method BytesValue(src: seq<byte>) returns (val: u64)
    requires |src| <= 7
    ensures val == Value(256, src)
  {
    val := 0;
    for i := 0 to |src|
      invariant val == Value(256, src[..i])
    {
      ValueStep(256, src, i);
      PrefixFits(256, src, i + 1);
      val := 256 * val + src[i];
    }
    assert src[..|src|] == src;
  }

  /** readBase36Block; 64 bits are enough for its accumulator. */
  method ReadBlock(s: seq<byte>) returns (r: Result<u64>)
    requires |s| <= 11
    ensures r == if Readable(s) then Ok(Value(36, DigitsIn(s))) else Err
  {
    var val: u64 := 0;
    for i := 0 to |s|
      invariant Readable(s[..i]) && val == Value(36, DigitsIn(s)[..i])
    {
      var digit := DigitOf(s[i]);
      if digit == 255 {
        return Err;
      }
      assert s[..i + 1] == s[..i] + [s[i]];
      ReadableDigits(s[..i + 1]);
      ValueStep(36, DigitsIn(s), i);
      assert DigitsIn(s)[..i + 1] == DigitsIn(s[..i + 1]);
      PrefixFits(36, DigitsIn(s[..i + 1]), i + 1);
      assert DigitsIn(s[..i + 1])[..i + 1] == DigitsIn(s[..i + 1]);
      val := 36 * val + digit;
    }
    assert s[..|s|] == s && DigitsIn(s)[..|s|] == DigitsIn(s);
    return Ok(val);
  }

  lemma ReadableDigits(s: seq<byte>)
    requires Readable(s)
    ensures AreDigits(36, DigitsIn(s))
  {
  }

  /** One block written behind what is there already. */
  method EncodeOne(dst: array<byte>, at: nat, block: seq<byte>) returns (count: nat)
    requires |block| <= 7 && at + CharsByBytes(|block|) <= dst.Length
    modifies dst
    ensures count == CharsByBytes(|block|)
    ensures dst[..at + count] == old(dst[..at]) + EncodeBlock(block)
    ensures dst[at + count..] == old(dst[at + count..])
  {
    var val := BytesValue(block);
    count := CharsByBytes(|block|);
    WriteBlock(dst, at, val, count);
    assert dst[..at + count] == dst[..at] + dst[at..at + count];
  }

  lemma EncodeUnfolds(src: seq<byte>)
    ensures |src| >= 7 ==> Encode(src) == EncodeBlock(src[..7]) + Encode(src[7..])
    ensures |src| < 7 ==> Encode(src) == EncodeBlock(src)
  {
  }

  /** EncodeLowerBase36To: fills the front of `dst` and leaves the rest of it alone. */
  method EncodeTo(dst: array<byte>, data: seq<byte>) returns (n: nat)
    requires EncodedLen(|data|) <= dst.Length
    modifies dst
    ensures n == EncodedLen(|data|) && dst[..n] == Encode(data) && dst[n..] == old(dst[n..])
  {
    EncodeLength(data);
    var src := data;
    n := 0;
    while |src| >= 7
      invariant n + |Encode(src)| == |Encode(data)|
      invariant dst[..n] + Encode(src) == Encode(data)
      invariant dst[|Encode(data)|..] == old(dst[|Encode(data)|..])
      decreases |src|
    {
      EncodeUnfolds(src);
      ghost var done, end := dst[..n], |Encode(data)|;
      var count := EncodeOne(dst, n, src[..7]);
      Associate(done, EncodeBlock(src[..7]), Encode(src[7..]));
      assert dst[end..] == dst[n + count..][end - n - count..];
      n := n + count;
      src := src[7..];
    }
    EncodeUnfolds(src);
    if |src| > 0 {
      var count := EncodeOne(dst, n, src);
      n := n + count;
    } else {
      assert dst[..n] + [] == dst[..n];
    }
  }

  lemma Associate(a: seq<byte>, b: seq<byte>, c: seq<byte>)
    ensures a + (b + c) == (a + b) + c
  {
  }

  /** One round of the decoding loop: the next block, unless it holds a character that is not a digit. */
  method DecodeOne(out: array<byte>, offset: nat, src: seq<byte>) returns (ok: bool, n: nat, c: nat)
    requires src != [] && DecodedLen(|src|).Ok? && offset + DecodedLen(|src|).value <= out.Length
    modifies out
    ensures (n, c) == NextBlock(|src|) && 0 < c <= |src| && offset + n <= out.Length
    ensures ok == Readable(src[..c])
    ensures ok ==> out[..offset + n] == old(out[..offset]) + DecodeBlock(src[..c], n)
  {
    var (n1, c1) := NextBlock(|src|);
    n, c := n1, c1;
    NextShape(|src|);
    var val := ReadBlock(src[..c]);
    ok := val.Ok?;
    if ok {
      WriteBytes(out, offset, val.value, n);
      assert out[..offset + n] == out[..offset] + out[offset..offset + n];
    }
  }

  /** DecodeLowerBase36. */
  method DecodeBytes(data: seq<byte>) returns (r: Result<seq<byte>>)
    ensures r == Decode(data)
  {
    if |data| == 0 {
      assert data == [];
      return Ok([]);
    }
    if DecodedLen(|data|).Err? { return Err; }
    var out := new byte[DecodedLen(|data|).value];
    var offset, src := 0, data;
    ghost var goal := DecodeBlocks(data);
    assert goal == Decode(data);
    PrefixedEnds(out[..0], goal);
    while |src| > 0
      invariant DecodedLen(|src|).Ok? && offset + DecodedLen(|src|).value == out.Length
      invariant goal == Prefixed(out[..offset], DecodeBlocks(src))
      decreases |src|
    {
      NextShape(|src|);
      DecodeStep(src);
      ghost var done := out[..offset];
      var ok, n, c := DecodeOne(out, offset, src);
      if !ok { return Err; }
      PrefixedStep(done, DecodeBlock(src[..c], n), DecodeBlocks(src[c..]));
      offset := offset + n;
      src := src[c..];
    }
    assert src == [] && out[..offset] == out[..];
    PrefixedEnds(out[..], DecodeBlocks(src));
    return Ok(out[..]);
  }

  lemma DecodeStep(s: seq<byte>)
    requires s != []
    ensures var (n, c) := NextBlock(|s|);
            DecodeBlocks(s) == if Readable(s[..c]) then Prefixed(DecodeBlock(s[..c], n), DecodeBlocks(s[c..])) else Err
  {
  }

  lemma PrefixedEnds(done: seq<byte>, rest: Result<seq<byte>>)
    ensures done == [] ==> Prefixed(done, rest) == rest
    ensures rest == Ok([]) ==> Prefixed(done, rest) == Ok(done)
  {
    if rest.Ok? { assert [] + rest.value == rest.value && done + [] == done; }
  }

  function Prefixed(done: seq<byte>, rest: Result<seq<byte>>): Result<seq<byte>> {
    match rest
    case Err => Err
    case Ok(tail) => Ok(done + tail)
  }

  lemma PrefixedStep(done: seq<byte>, block: seq<byte>, rest: Result<seq<byte>>)
    ensures Prefixed(done, Prefixed(block, rest)) == Prefixed(done + block, rest)
  {
    if rest.Ok? { assert done + (block + rest.value) == (done + block) + rest.value; }
  }

  /** A block leaves a length that has an encoding, shorter by the block's bytes. */
  lemma NextShape(m: nat)
    requires m > 0 && DecodedLen(m).Ok?
    ensures var (n, c) := NextBlock(m);
            0 < c <= m && c <= 11 && n <= 7 && DecodedLen(m - c).Ok?
                && DecodedLen(m - c).value + n == DecodedLen(m).value
  {
    if m >= 11 {
      assert (m - 11) % 11 == m % 11 && (m - 11) / 11 == m / 11 - 1;
    }
  }
}
