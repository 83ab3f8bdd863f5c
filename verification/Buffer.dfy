/** Flakkari/Network/Buffer: run-length coding, nibble ("hex") coding and XOR masking, as functions on byte sequences
    and as loops over a buffer. */
module Buffers {
  import opened Bytes
  import opened Sequences

  /** Length of the first maximal run of equal bytes. */
  function LeadRun(b: seq<byte>): (n: nat)
    ensures n <= |b| && (b != [] ==> n >= 1)
    ensures forall i :: 0 <= i < n ==> b[i] == b[0]
    ensures 0 < n < |b| ==> b[n] != b[0]
  {
    if |b| <= 1 then |b| else if b[1] == b[0] then 1 + LeadRun(b[1..]) else 1
  }

  /** One (count, byte) pair per maximal run; the count is a byte, so it wraps at 256. */
  function EncodedRuns(b: seq<byte>): (e: seq<byte>)
    decreases |b|
  {
    if b == [] then [] else [LeadRun(b) % 256, b[0]] + EncodedRuns(b[LeadRun(b)..])
  }

  function Repeat(x: byte, n: nat): (r: seq<byte>)
    ensures |r| == n && forall i :: 0 <= i < n ==> r[i] == x
  {
    seq(n, i => x)
  }

  /** Expands (count, byte) pairs. Behind an unpaired last byte the source reads past the end (see RunLengthDecode). */
  function DecodedRuns(e: seq<byte>): seq<byte> {
    if |e| < 2 then [] else Repeat(e[1], e[0]) + DecodedRuns(e[2..])
  }

  /** Positions where a maximal run starts. */
  function RunStarts(b: seq<byte>): set<nat> {
    set i: nat | i < |b| && IsRunStart(b, i)
  }

  predicate IsRunStart(b: seq<byte>, i: nat)
    requires i < |b|
  {
    i == 0 || b[i] != b[i - 1]
  }

  /** 256 equal bytes in a row, somewhere. */
  ghost predicate HasLongRun(b: seq<byte>) {
    exists i: nat :: LongRunAt(b, i)
  }

  ghost predicate LongRunAt(b: seq<byte>, i: nat) {
    i + 256 <= |b| && forall j :: i <= j < i + 256 ==> b[j] == b[i]
  }

  lemma {:induction false} EncodedIsPairs(b: seq<byte>)
    ensures |EncodedRuns(b)| % 2 == 0
    decreases |b|
  {
    if b != [] {
      EncodedIsPairs(b[LeadRun(b)..]);
    }
  }

  /** The encoded length is twice the number of maximal runs. */
  lemma {:induction false} EncodedLength(b: seq<byte>)
    ensures |EncodedRuns(b)| == 2 * |RunStarts(b)|
    decreases |b|
  {
    if b == [] {
      assert RunStarts(b) == {};
    } else {
      var n := LeadRun(b);
      EncodedLength(b[n..]);
      RunStartsSplit(b);
      ShiftedSize(RunStarts(b[n..]), n);
    }
  }

  function Shifted(s: set<nat>, n: nat): set<nat> {
    set i: nat | i in s :: i + n
  }

  /** The starts of b are 0 and the starts of the rest after the first run. */
  lemma RunStartsSplit(b: seq<byte>)
    requires b != []
    ensures var n := LeadRun(b);
      RunStarts(b) == {0} + Shifted(RunStarts(b[n..]), n) && 0 !in Shifted(RunStarts(b[n..]), n)
  {
    var n := LeadRun(b);
    var rest := b[n..];
    forall i: nat | n <= i < |b|
      ensures IsRunStart(b, i) == IsRunStart(rest, i - n)
    {
      assert rest[i - n] == b[i] && b[n - 1] == b[0];
    }
    forall i: nat | i in RunStarts(b) && i != 0
      ensures i in Shifted(RunStarts(rest), n)
    {
      assert i >= n;
      assert i - n in RunStarts(rest);
    }
  }

  lemma ShiftedPick(s: set<nat>, n: nat, x: nat)
    requires x in s
    ensures Shifted(s, n) == Shifted(s - {x}, n) + {x + n} && x + n !in Shifted(s - {x}, n)
  {
    forall y | y in Shifted(s, n)
      ensures y in Shifted(s - {x}, n) + {x + n}
    {
      var i: nat :| i in s && y == i + n;
      if i != x {
        assert i in s - {x};
      }
    }
    assert x + n in Shifted(s, n);
  }

  lemma {:induction false} ShiftedSize(s: set<nat>, n: nat)
    ensures |Shifted(s, n)| == |s|
  {
    if s != {} {
      var x :| x in s;
      ShiftedSize(s - {x}, n);
      ShiftedPick(s, n, x);
    }
  }

  /** A run of 256 starts in the first maximal run or lies after it. */
  lemma LongRunSplit(b: seq<byte>)
    requires b != []
    ensures HasLongRun(b) <==> LeadRun(b) >= 256 || HasLongRun(b[LeadRun(b)..])
  {
    var n := LeadRun(b);
    var rest := b[n..];
    if n >= 256 {
      assert LongRunAt(b, 0);
    }
    forall i: nat | LongRunAt(rest, i)
      ensures LongRunAt(b, i + n)
    {
      assert forall j :: n <= j < |b| ==> b[j] == rest[j - n];
    }
    forall i: nat | LongRunAt(b, i) && n < 256
      ensures n <= i && LongRunAt(rest, i - n)
    {
      LongRunStart(b, i);
      assert forall j :: 0 <= j < |rest| ==> rest[j] == b[j + n];
    }
  }

  lemma LongRunStart(b: seq<byte>, i: nat)
    requires LongRunAt(b, i) && LeadRun(b) < 256
    ensures LeadRun(b) <= i
  {
    var n := LeadRun(b);
    assert i <= n < i + 256 ==> b[n] == b[i];
  }

  lemma DecodePair(c: byte, x: byte, e: seq<byte>)
    ensures DecodedRuns([c, x] + e) == Repeat(x, c) + DecodedRuns(e)
  {
    assert ([c, x] + e)[2..] == e;
  }

  /** Decoding the encoding loses bytes exactly when some run is counted modulo 256. */
  lemma {:induction false} DecodeOfEncode(b: seq<byte>)
    ensures !HasLongRun(b) ==> DecodedRuns(EncodedRuns(b)) == b
    ensures |DecodedRuns(EncodedRuns(b))| <= |b|
    ensures HasLongRun(b) ==> |DecodedRuns(EncodedRuns(b))| < |b|
    decreases |b|
  {
    if b != [] {
      var rest := b[LeadRun(b)..];
      DecodeOfEncode(rest);
      LongRunSplit(b);
      DecodeRunOf(b);
    }
  }

  /** One maximal run is decoded as its length modulo 256. */
  lemma DecodeRunOf(b: seq<byte>)
    requires b != []
    ensures var n, rest := LeadRun(b), b[LeadRun(b)..];
      && DecodedRuns(EncodedRuns(b)) == Repeat(b[0], n % 256) + DecodedRuns(EncodedRuns(rest))
      && (n < 256 ==> Repeat(b[0], n % 256) + rest == b)
  {
    hide DecodedRuns, EncodedRuns, Repeat, LeadRun;
    EncodeLeadRun(b);
    DecodePair(LeadRun(b) % 256, b[0], EncodedRuns(b[LeadRun(b)..]));
    LeadRunRepeats(b);
  }

  lemma EncodeLeadRun(b: seq<byte>)
    requires b != []
    ensures EncodedRuns(b) == [LeadRun(b) % 256, b[0]] + EncodedRuns(b[LeadRun(b)..])
  {
  }

  lemma LeadRunRepeats(b: seq<byte>)
    requires b != []
    ensures Repeat(b[0], LeadRun(b)) + b[LeadRun(b)..] == b
  {
  }

  /** A run is written as its length and then its byte. */
  lemma RunLayout(x: byte, n: nat, rest: seq<byte>)
    requires n > 0 && (rest != [] ==> rest[0] != x)
    ensures EncodedRuns(Repeat(x, n) + rest) == [n % 256, x] + EncodedRuns(rest)
  {
    hide LeadRun, EncodedRuns;
    var b := Repeat(x, n) + rest;
    EncodeLeadRun(b);
    assert b[n - 1] == x && (rest != [] ==> b[n] == rest[0]);
    assert LeadRun(b) == n;
    assert b[n..] == rest;
  }

  /** Run-length coding round-trips exactly on the buffers without 256 equal bytes in a row. */
  lemma RunLengthRoundTrip(b: seq<byte>)
    ensures DecodedRuns(EncodedRuns(b)) == b <==> !HasLongRun(b)
  {
    DecodeOfEncode(b);
  }

  /** Two nibbles a byte, high nibble first, each kept in a byte of its own. */
  function Nibbles(b: seq<byte>): (h: seq<byte>)
    ensures |h| == 2 * |b|
  {
    if b == [] then [] else [b[0] / 16, b[0] % 16] + Nibbles(b[1..])
  }

  /** The high half of the i-th byte, then its low half. */
  lemma {:induction false} NibbleLayout(b: seq<byte>, i: nat)
    requires i < |b|
    ensures Nibbles(b)[2 * i] == b[i] / 16 && Nibbles(b)[2 * i + 1] == b[i] % 16
  {
    if i > 0 {
      NibbleLayout(b[1..], i - 1);
      assert Nibbles(b)[2 * i] == Nibbles(b[1..])[2 * (i - 1)];
      assert Nibbles(b)[2 * i + 1] == Nibbles(b[1..])[2 * (i - 1) + 1];
    }
  }

  /** `hi * 16 + lo` stored in a byte. */
  function Joined(hi: int, lo: int): byte {
    (hi * 16 + lo) % 256
  }

  function FromNibbles(h: seq<byte>): (b: seq<byte>)
    ensures |b| == |h| / 2
  {
    if |h| < 2 then [] else [Joined(h[0], h[1])] + FromNibbles(h[2..])
  }

  lemma FromNibblesStep(h: seq<byte>, i: nat)
    requires i + 2 <= |h|
    ensures FromNibbles(h[i..]) == [Joined(h[i], h[i + 1])] + FromNibbles(h[i + 2..])
  {
    assert h[i..][2..] == h[i + 2..];
  }

  lemma {:induction false} HexRoundTrip(b: seq<byte>)
    ensures FromNibbles(Nibbles(b)) == b
  {
    if b != [] {
      HexRoundTrip(b[1..]);
      assert Nibbles(b)[2..] == Nibbles(b[1..]);
    }
  }

  predicate AllNibbles(h: seq<byte>) {
    forall i :: 0 <= i < |h| ==> h[i] < 16
  }

  /** The other direction holds exactly when every entry is a nibble. */
  lemma {:induction false} HexCanonical(h: seq<byte>)
    requires |h| % 2 == 0
    ensures Nibbles(FromNibbles(h)) == h <==> AllNibbles(h)
  {
    hide Nibbles, FromNibbles, AllNibbles, Joined;
    if h != [] {
      var rest := h[2..];
      var x := Joined(h[0], h[1]);
      HexCanonical(rest);
      HexPair(h[0], h[1], rest);
      assert [h[0], h[1]] + rest == h;
      PairCanonical(h[0], h[1]);
      EqualSums([x / 16, x % 16], Nibbles(FromNibbles(rest)), [h[0], h[1]], rest);
    } else {
      NothingCanonical();
    }
  }

  lemma JoinedParts(hi: byte, lo: byte)
    ensures Joined(hi, lo) % 16 == lo % 16
    ensures lo < 16 ==> Joined(hi, lo) / 16 == hi % 16
  {
    var a, h := hi / 16, hi % 16;
    assert hi * 16 + lo == 256 * a + (16 * h + lo);
  }

  lemma PairCanonical(hi: byte, lo: byte)
    ensures var x := Joined(hi, lo); [x / 16, x % 16] == [hi, lo] <==> hi < 16 && lo < 16
  {
    hide Joined;
    var x := Joined(hi, lo);
    JoinedParts(hi, lo);
    assert [x / 16, x % 16][0] == x / 16 && [x / 16, x % 16][1] == x % 16;
    assert [hi, lo][0] == hi && [hi, lo][1] == lo;
  }

  lemma NothingCanonical()
    ensures Nibbles(FromNibbles([])) == [] && AllNibbles([])
  {
  }

  lemma HexPair(hi: byte, lo: byte, rest: seq<byte>)
    ensures var x := Joined(hi, lo);
      Nibbles(FromNibbles([hi, lo] + rest)) == [x / 16, x % 16] + Nibbles(FromNibbles(rest))
    ensures AllNibbles([hi, lo] + rest) <==> hi < 16 && lo < 16 && AllNibbles(rest)
  {
    var h := [hi, lo] + rest;
    assert h[2..] == rest;
    assert FromNibbles(h)[1..] == FromNibbles(rest);
    assert forall i :: 0 <= i < |rest| ==> rest[i] == h[i + 2];
  }

  /** Bitwise exclusive or of the low n bits. */
  function XorBits(n: nat, x: nat, y: nat): nat {
    if n == 0 then 0 else (x % 2 + y % 2) % 2 + 2 * XorBits(n - 1, x / 2, y / 2)
  }

  function XorByte(x: nat, y: nat): byte {
    XorBelow(8, x, y);
    XorBits(8, x, y)
  }

  function Pow2(n: nat): nat {
    if n == 0 then 1 else 2 * Pow2(n - 1)
  }

  lemma {:induction false} XorBelow(n: nat, x: nat, y: nat)
    ensures XorBits(n, x, y) < Pow2(n)
    ensures n == 8 ==> Pow2(n) == 256
  {
    assert Pow2(4) == 16 && Pow2(8) == 256;
    if n > 0 {
      XorBelow(n - 1, x / 2, y / 2);
    }
  }

  lemma LowBit(x: nat, y: nat, z: nat)
    ensures var w := (x % 2 + y % 2) % 2 + 2 * z;
      w / 2 == z && (w % 2 + y % 2) % 2 == x % 2
  {
  }

  /** The i-th binary digit, lowest first. */
  predicate BitOf(x: nat, i: nat) {
    if i == 0 then x % 2 == 1 else BitOf(x / 2, i - 1)
  }

  /** A bit is set exactly where the two differ. */
  lemma {:induction false} XorLayout(n: nat, x: nat, y: nat, i: nat)
    requires i < n
    ensures BitOf(XorBits(n, x, y), i) <==> BitOf(x, i) != BitOf(y, i)
    decreases i
  {
    XorStep(n, x, y);
    LowBit(x, y, XorBits(n - 1, x / 2, y / 2));
    if i > 0 {
      XorLayout(n - 1, x / 2, y / 2, i - 1);
    }
  }

  lemma XorStep(n: nat, x: nat, y: nat)
    requires n > 0
    ensures XorBits(n, x, y) == (x % 2 + y % 2) % 2 + 2 * XorBits(n - 1, x / 2, y / 2)
  {
  }

  lemma {:induction false} XorTwice(n: nat, x: nat, y: nat)
    requires x < Pow2(n)
    ensures XorBits(n, XorBits(n, x, y), y) == x
  {
    if n > 0 {
      var rest := XorBits(n - 1, x / 2, y / 2);
      XorTwice(n - 1, x / 2, y / 2);
      LowBit(x, y, rest);
      XorStep(n, XorBits(n, x, y), y);
    }
  }

  /** The common prefix is masked, the tail is kept. */
  function Masked(b: seq<byte>, key: seq<byte>): (r: seq<byte>)
    ensures |r| == |b|
  {
    seq(|b|, i requires 0 <= i < |b| => if i < |key| then XorByte(b[i], key[i]) else b[i])
  }

  /** Masking twice with the same key, of any length, is the identity. */
  lemma XorInvolution(b: seq<byte>, key: seq<byte>)
    ensures Masked(Masked(b, key), key) == b
  {
    forall i | 0 <= i < |b| && i < |key|
      ensures XorByte(XorByte(b[i], key[i]), key[i]) == b[i]
    {
      XorBelow(8, b[i], key[i]);
      XorTwice(8, b[i], key[i]);
    }
  }

  class Buffer {
    var data: seq<byte>

    constructor (bytes: seq<byte>)
      ensures data == bytes
    {
      data := bytes;
    }

    /** Reads element 0 first, so the source demands a non-empty buffer. */
    method RunLengthEncode()
      requires data != []
      modifies this
      ensures data == EncodedRuns(old(data))
    {
      data := Encode(data);
    }

    static method Encode(input: seq<byte>) returns (encoded: seq<byte>)
      requires input != []
      ensures encoded == EncodedRuns(input)
    {
      hide EncodedRuns;
      encoded := [];
      var currentByte := input[0];
      var currentCount: byte := 1;
      ghost var runLength := 1;
      var i := 1;
      assert input == Repeat(currentByte, 1) + input[1..];
      while i < |input|
        invariant 1 <= i <= |input| && runLength > 0
        invariant currentCount == runLength % 256
        invariant EncodedRuns(input) == encoded + EncodedRuns(Repeat(currentByte, runLength) + input[i..])
      {
        ghost var rest := input[i + 1..];
        assert input[i..] == [input[i]] + rest;
        if input[i] == currentByte {
          RepeatMore(currentByte, runLength, rest);
          currentCount := if currentCount == 255 then 0 else currentCount + 1;
          runLength := runLength + 1;
        } else {
          EncodeRunThen(currentByte, runLength, input[i..]);
          Regroup(encoded, currentCount, currentByte, EncodedRuns(input[i..]));
          encoded := encoded + [currentCount] + [currentByte];
          currentByte := input[i];
          currentCount := 1;
          runLength := 1;
          assert input[i..] == Repeat(currentByte, 1) + rest;
        }
        i := i + 1;
      }
      assert Repeat(currentByte, runLength) + input[i..] == Repeat(currentByte, runLength) + [];
      EncodeRunThen(currentByte, runLength, []);
      EncodedEmpty();
      Regroup(encoded, currentCount, currentByte, []);
      encoded := encoded + [currentCount] + [currentByte];
    }

    /** Reads bytes in pairs, so the source demands an even length. */
    method RunLengthDecode()
      requires |data| % 2 == 0
      modifies this
      ensures data == DecodedRuns(old(data))
    {
      hide DecodedRuns, Repeat;
      var input, decoded := data, [];
      var i := 0;
      Empty(DecodedRuns(input));
      while i < |input|
        invariant 0 <= i <= |input| && i % 2 == 0
        invariant decoded + DecodedRuns(input[i..]) == DecodedRuns(input)
      {
        var currentCount := input[i];
        var currentByte := input[i + 1];
        ghost var before := decoded;
        var j := 0;
        RepeatOneMore(currentByte, 0);
        Empty(before);
        while j < currentCount
          invariant 0 <= j <= currentCount
          invariant decoded == before + Repeat(currentByte, j)
        {
          RepeatOneMore(currentByte, j);
          Associative(before, Repeat(currentByte, j), [currentByte]);
          decoded := decoded + [currentByte];
          j := j + 1;
        }
        assert input[i..] == [currentCount, currentByte] + input[i + 2..];
        DecodePair(currentCount, currentByte, input[i + 2..]);
        Associative(before, Repeat(currentByte, currentCount), DecodedRuns(input[i + 2..]));
        i := i + 2;
      }
      DecodedEmpty();
      assert input[|input|..] == [];
      Empty(decoded);
      data := decoded;
    }

    method ConvertToHex()
      modifies this
      ensures data == Nibbles(old(data))
    {
      var input, hex := data, [];
      var i := 0;
      while i < |input|
        invariant 0 <= i <= |input|
        invariant hex + Nibbles(input[i..]) == Nibbles(input)
      {
        assert Nibbles(input[i..]) == [input[i] / 16, input[i] % 16] + Nibbles(input[i + 1..]);
        Regroup(hex, input[i] / 16, input[i] % 16, Nibbles(input[i + 1..]));
        hex := hex + [input[i] / 16];
        hex := hex + [input[i] % 16];
        i := i + 1;
      }
      data := hex;
    }

    /** Reads bytes in pairs, so the source demands an even length. */
    method ConvertFromHex()
      requires |data| % 2 == 0
      modifies this
      ensures data == FromNibbles(old(data))
    {
      var input, bytes := data, [];
      var i := 0;
      while i < |input|
        invariant 0 <= i <= |input| && i % 2 == 0
        invariant bytes + FromNibbles(input[i..]) == FromNibbles(input)
      {
        var currentByte := Joined(input[i], input[i + 1]);
        FromNibblesStep(input, i);
        bytes := bytes + [currentByte];
        i := i + 2;
      }
      data := bytes;
    }

    method BitwiseXor(other: seq<byte>)
      modifies this
      ensures data == Masked(old(data), other)
    {
      var minSize := if |data| < |other| then |data| else |other|;
      var i := 0;
      while i < minSize
        invariant 0 <= i <= minSize && |data| == old(|data|)
        invariant forall k :: 0 <= k < |data| ==>
          data[k] == if k < i then XorByte(old(data)[k], other[k]) else old(data)[k]
      {
        data := data[i := XorByte(data[i], other[i])];
        i := i + 1;
      }
    }
  }

  lemma RepeatOneMore(x: byte, n: nat)
    ensures Repeat(x, n + 1) == Repeat(x, n) + [x] && Repeat(x, 0) == []
  {
  }

  lemma DecodedEmpty()
    ensures DecodedRuns([]) == []
  {
  }

  lemma EncodedEmpty()
    ensures EncodedRuns([]) == []
  {
  }

  lemma RepeatMore(x: byte, n: nat, rest: seq<byte>)
    ensures Repeat(x, n) + ([x] + rest) == Repeat(x, n + 1) + rest
  {
  }

  lemma Regroup(a: seq<byte>, x: byte, y: byte, rest: seq<byte>)
    ensures a + ([x, y] + rest) == a + [x] + [y] + rest
  {
  }

  /** Encoding a run followed by something that does not continue it. */
  lemma EncodeRunThen(x: byte, n: nat, rest: seq<byte>)
    requires n > 0 && (rest != [] ==> rest[0] != x)
    ensures EncodedRuns(Repeat(x, n) + rest) == [n % 256, x] + EncodedRuns(rest)
  {
    var b := Repeat(x, n) + rest;
    assert LeadRun(b) == n by {
      assert forall i :: 0 <= i < n ==> b[i] == x;
      assert rest != [] ==> b[n] == rest[0];
    }
    assert b[n..] == rest;
  }
}
