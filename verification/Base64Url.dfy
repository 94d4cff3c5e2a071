/** The base64url decoder of Owner tokens, against the encoding of section 5 of RFC 4648. */
module Base64Url {
  import opened Bytes

  const PAD: Byte := 0x3D

  /** Value of an alphabet character; `None` outside the URL-safe alphabet. */
  function Value(c: Byte): (v: Option<Byte>)
    ensures v.Some? ==> v.value < 64
  {
    if 0x41 <= c <= 0x5A then Some(c - 0x41)
    else if 0x61 <= c <= 0x7A then Some(c - 0x61 + 26)
    else if 0x30 <= c <= 0x39 then Some(c - 0x30 + 52)
    else if c == 0x2D then Some(62)
    else if c == 0x5F then Some(63)
    else None
  }

  /** `trim_end_matches('=')`. */
  function StripPadding(s: seq<Byte>): seq<Byte> {
    if s != [] && s[|s| - 1] == PAD then StripPadding(s[..|s| - 1]) else s
  }

  /** The octets that one chunk of two to four values stands for. */
  function DecodeGroup(vals: seq<Byte>): (out: seq<Byte>)
    requires 2 <= |vals| <= 4 && forall i | 0 <= i < |vals| :: vals[i] < 64
    ensures |out| == |vals| - 1
  {
    var b0: Byte := vals[0] * 4 + vals[1] / 16;
    if |vals| == 2 then [b0]
    else
      var b1: Byte := vals[1] % 16 * 16 + vals[2] / 4;
      if |vals| == 3 then [b0, b1] else [b0, b1, vals[2] % 4 * 64 + vals[3]]
  }

  /** The values of the characters of `s`, when all are in the alphabet. */
  predicate InAlphabet(s: seq<Byte>) {
    forall i | 0 <= i < |s| :: Value(s[i]).Some?
  }

  function Values(s: seq<Byte>): (v: seq<Byte>)
    requires InAlphabet(s)
    ensures |v| == |s| && forall i | 0 <= i < |s| :: v[i] == Value(s[i]).value && v[i] < 64
  {
    seq(|s|, i requires 0 <= i < |s| => Value(s[i]).value)
  }

  /** What the decoder returns on a text whose padding is gone, four characters at a time. */
  function DecodeUnpadded(s: seq<Byte>): Option<seq<Byte>> {
    if s == [] then Some([])
    else
      var n := if |s| < 4 then |s| else 4;
      if n < 2 || !InAlphabet(s[..n]) then None
      else
        match DecodeUnpadded(s[n..])
        case None => None
        case Some(rest) => Some(DecodeGroup(Values(s[..n])) + rest)
  }

  /** The inner loop: the values of a chunk, zero-filled to four. */
  method ReadChunk(chunk: seq<Byte>) returns (r: Option<seq<Byte>>)
    requires |chunk| <= 4
    ensures r.Some? <==> InAlphabet(chunk)
    ensures r.Some? ==> |r.value| == 4 && r.value[..|chunk|] == Values(chunk)
    ensures r.Some? ==> forall i | |chunk| <= i < 4 :: r.value[i] == 0
  {
    var vals: seq<Byte> := [0, 0, 0, 0];
    for k := 0 to |chunk|
      invariant |vals| == 4
      invariant forall i | 0 <= i < k :: Value(chunk[i]).Some? && vals[i] == Value(chunk[i]).value
      invariant forall i | k <= i < 4 :: vals[i] == 0
    {
      if Value(chunk[k]).None? {
        return None;
      }
      vals := vals[k := Value(chunk[k]).value];
    }
    r := Some(vals);
  }

  /** The octets pushed for a chunk, cut out of the 24-bit accumulator. */
  method DecodeChunk(vals: seq<Byte>, n: nat) returns (group: seq<Byte>)
    requires 2 <= n <= 4 && |vals| == 4 && forall i | 0 <= i < 4 :: vals[i] < 64
    requires forall i | n <= i < 4 :: vals[i] == 0
    ensures group == DecodeGroup(vals[..n])
  {
    // The four values occupy disjoint bits, so the source's `|` is an addition.
    var merged := vals[0] as int * 0x40000 + vals[1] as int * 0x1000 + vals[2] as int * 0x40 + vals[3] as int;
    MergedBytes(vals[0], vals[1], vals[2], vals[3]);
    group := [merged / 0x10000 % 256];
    if n >= 3 {
      group := group + [merged / 0x100 % 256];
    }
    if n >= 4 {
      group := group + [merged % 256];
    }
  }

  /** The decoder, four characters at a time. */
  method Decode(input: seq<Byte>) returns (r: Option<seq<Byte>>)
    ensures r == DecodeUnpadded(StripPadding(input))
  {
    var s := StripPadding(input);
    var out: seq<Byte> := [];
    var at := 0;
    assert s[0..] == s;
    PrependNothing(DecodeUnpadded(s));
    while at < |s|
      invariant 0 <= at <= |s|
      invariant DecodeUnpadded(s) == Prepend(out, DecodeUnpadded(s[at..]))
      decreases |s| - at
    {
      var n := if |s| - at < 4 then |s| - at else 4;
      var chunk := s[at..at + n];
      SuffixOfSuffix(s, at, n);
      if n < 2 {
        return None;
      }
      var vals := ReadChunk(chunk);
      if vals.None? {
        return None;
      }
      var group := DecodeChunk(vals.value, n);
      PrependTwice(out, group, DecodeUnpadded(s[at + n..]));
      out := out + group;
      at := at + n;
    }
    assert out + [] == out;
    r := Some(out);
  }

  lemma SuffixOfSuffix(s: seq<Byte>, at: nat, n: nat)
    requires at + n <= |s|
    ensures s[at..at + n] == s[at..][..n] && s[at + n..] == s[at..][n..]
  {
  }

  ghost function Prepend(out: seq<Byte>, rest: Option<seq<Byte>>): Option<seq<Byte>> {
    match rest
    case None => None
    case Some(tail) => Some(out + tail)
  }

  lemma PrependNothing(rest: Option<seq<Byte>>)
    ensures Prepend([], rest) == rest
  {
    if rest.Some? {
      assert [] + rest.value == rest.value;
    }
  }

  lemma PrependTwice(out: seq<Byte>, group: seq<Byte>, rest: Option<seq<Byte>>)
    ensures Prepend(out, Prepend(group, rest)) == Prepend(out + group, rest)
  {
    if rest.Some? {
      assert out + (group + rest.value) == (out + group) + rest.value;
    }
  }

  lemma LowOctets(q: nat, r: nat)
    requires r < 0x10000
    ensures (q * 0x10000 + r) / 0x10000 == q
  {
  }

  lemma LowOctet(q: nat, r: nat)
    requires r < 0x100
    ensures (q * 0x100 + r) / 0x100 == q && (q * 0x100 + r) % 0x100 == r
  {
  }

  /** The three octets of the accumulator, as shifts and masks read them. */
  lemma MergedBytes(v0: Byte, v1: Byte, v2: Byte, v3: Byte)
    requires v0 < 64 && v1 < 64 && v2 < 64 && v3 < 64
    ensures var m := v0 * 0x40000 + v1 * 0x1000 + v2 * 0x40 + v3;
            && m / 0x10000 % 256 == v0 * 4 + v1 / 16
            && m / 0x100 % 256 == v1 % 16 * 16 + v2 / 4
            && m % 256 == v2 % 4 * 64 + v3
  {
    var b0, b1, b2 := v0 * 4 + v1 / 16, v1 % 16 * 16 + v2 / 4, v2 % 4 * 64 + v3;
    assert v1 == v1 / 16 * 16 + v1 % 16 && v2 == v2 / 4 * 4 + v2 % 4;
    LowOctets(b0, b1 * 0x100 + b2);
    LowOctet(b0 * 0x100 + b1, b2);
    LowOctet(b0, b1);
  }

  // ----- the encoding of RFC 4648, section 5, without padding -----

  function Symbol(v: Byte): (c: Byte)
    requires v < 64
    ensures Value(c) == Some(v) && c != PAD
  {
    if v < 26 then v + 0x41
    else if v < 52 then v - 26 + 0x61
    else if v < 62 then v - 52 + 0x30
    else if v == 62 then 0x2D
    else 0x5F
  }

  const UPPER := "ABCDEFGHIJKLMNOPQRSTUVWXYZ"
  const LOWER := "abcdefghijklmnopqrstuvwxyz"
  const OTHERS := "0123456789-_"

  /** The symbols are the URL-safe alphabet of RFC 4648, section 5, in the order of the values. */
  lemma SymbolIs(v: Byte)
    requires v < 64
    ensures |UPPER| == 26 && |LOWER| == 26 && |OTHERS| == 12
    ensures v < 26 ==> Symbol(v) == UPPER[v] as int
    ensures 26 <= v < 52 ==> Symbol(v) == LOWER[v - 26] as int
    ensures 52 <= v ==> Symbol(v) == OTHERS[v - 52] as int
  {
    if v < 26 {
      UpperIs(v);
    } else if v < 52 {
      LowerIs(v - 26);
    }
  }

  lemma UpperIs(i: nat)
    requires i < 26
    ensures UPPER[i] as int == 0x41 + i
  {
  }

  lemma LowerIs(i: nat)
    requires i < 26
    ensures LOWER[i] as int == 0x61 + i
  {
  }

  /** Three octets give four values, two give three, one gives two; spare bits are zero. */
  function EncodeGroup(b: seq<Byte>): (v: seq<Byte>)
    requires 1 <= |b| <= 3
    ensures |v| == |b| + 1 && forall i | 0 <= i < |v| :: v[i] < 64
  {
    if |b| == 1 then [b[0] / 4, b[0] % 4 * 16]
    else if |b| == 2 then [b[0] / 4, b[0] % 4 * 16 + b[1] / 16, b[1] % 16 * 4]
    else [b[0] / 4, b[0] % 4 * 16 + b[1] / 16, b[1] % 16 * 4 + b[2] / 64, b[2] % 64]
  }

  function Symbols(v: seq<Byte>): (s: seq<Byte>)
    requires forall i | 0 <= i < |v| :: v[i] < 64
    ensures |s| == |v| && forall i | 0 <= i < |v| :: s[i] == Symbol(v[i])
  {
    seq(|v|, i requires 0 <= i < |v| => Symbol(v[i]))
  }

  function Encode(b: seq<Byte>): seq<Byte> {
    if b == [] then []
    else
      var n := if |b| < 3 then |b| else 3;
      Symbols(EncodeGroup(b[..n])) + Encode(b[n..])
  }

  lemma Nibbles(x: Byte, y: Byte)
    requires x < 4 && y < 16
    ensures (x * 16 + y) / 16 == x && (x * 16 + y) % 16 == y
  {
  }

  lemma Pairs(x: Byte, y: Byte)
    requires x < 16 && y < 4
    ensures (x * 4 + y) / 4 == x && (x * 4 + y) % 4 == y
  {
  }

  lemma GroupRoundTrip(b: seq<Byte>)
    requires 1 <= |b| <= 3
    ensures DecodeGroup(EncodeGroup(b)) == b
  {
    var v := EncodeGroup(b);
    Nibbles(b[0] % 4, if |b| > 1 then b[1] / 16 else 0);
    assert v[0] * 4 + v[1] / 16 == b[0];
    if |b| > 1 {
      Pairs(b[1] % 16, if |b| > 2 then b[2] / 64 else 0);
      assert v[1] % 16 * 16 + v[2] / 4 == b[1];
    }
    if |b| > 2 {
      assert v[2] % 4 * 64 + v[3] == b[2];
    }
  }

  /** A chunk of symbols in front of a text decodes to its group in front of the rest. */
  lemma ChunkInFront(v: seq<Byte>, rest: seq<Byte>)
    requires 2 <= |v| <= 4 && (|v| < 4 ==> rest == []) && forall i | 0 <= i < |v| :: v[i] < 64
    ensures DecodeUnpadded(Symbols(v) + rest) == Prepend(DecodeGroup(v), DecodeUnpadded(rest))
    ensures InAlphabet(rest) ==> InAlphabet(Symbols(v) + rest)
  {
    var head := Symbols(v);
    assert (head + rest)[..|v|] == head && (head + rest)[|v|..] == rest;
    assert InAlphabet(head) && Values(head) == v;
  }

  lemma {:induction false} DecodeUndoesEncode(b: seq<Byte>)
    ensures DecodeUnpadded(Encode(b)) == Some(b)
    ensures InAlphabet(Encode(b))
  {
    if b != [] {
      var n := if |b| < 3 then |b| else 3;
      DecodeUndoesEncode(b[n..]);
      ChunkInFront(EncodeGroup(b[..n]), Encode(b[n..]));
      GroupRoundTrip(b[..n]);
      assert b == b[..n] + b[n..];
    }
  }

  /** Strips any amount of padding behind a text that does not end in `=`. */
  lemma {:induction false} StripsPads(s: seq<Byte>, pads: seq<Byte>)
    requires s == [] || s[|s| - 1] != PAD
    requires forall i | 0 <= i < |pads| :: pads[i] == PAD
    ensures StripPadding(s + pads) == s
    decreases |pads|
  {
    if pads == [] {
      assert s + pads == s;
    } else {
      assert (s + pads)[..|s + pads| - 1] == s + pads[..|pads| - 1];
      StripsPads(s, pads[..|pads| - 1]);
    }
  }

  /** Every octet string comes back from its encoding, whatever padding follows it. */
  lemma RoundTrip(b: seq<Byte>, pads: seq<Byte>)
    requires forall i | 0 <= i < |pads| :: pads[i] == PAD
    ensures DecodeUnpadded(StripPadding(Encode(b) + pads)) == Some(b)
  {
    DecodeUndoesEncode(b);
    StripsPadsOfAlphabet(Encode(b), pads);
  }

  lemma StripsPadsOfAlphabet(s: seq<Byte>, pads: seq<Byte>)
    requires InAlphabet(s)
    requires forall i | 0 <= i < |pads| :: pads[i] == PAD
    ensures StripPadding(s + pads) == s
  {
    assert s != [] ==> Value(s[|s| - 1]).Some?;
    StripsPads(s, pads);
  }

  // ----- exactly what decodes, to how many octets, and when re-encoding gives it back -----

  /** The bits of the last character that stand for no octet are zero (RFC 4648, section 3.5). */
  predicate SpareBitsZero(s: seq<Byte>)
    requires InAlphabet(s)
  {
    (|s| % 4 == 2 ==> Value(s[|s| - 1]).value % 16 == 0) &&
    (|s| % 4 == 3 ==> Value(s[|s| - 1]).value % 4 == 0)
  }

  lemma InAlphabetSplits(s: seq<Byte>, n: nat)
    requires n <= |s|
    ensures InAlphabet(s) <==> InAlphabet(s[..n]) && InAlphabet(s[n..])
  {
    if InAlphabet(s[..n]) && InAlphabet(s[n..]) {
      forall i | 0 <= i < |s| ensures Value(s[i]).Some? {
        assert s[i] == if i < n then s[..n][i] else s[n..][i - n];
      }
    }
  }

  /** Decoding takes off one chunk and goes on. */
  lemma DecodesByChunk(s: seq<Byte>, n: nat)
    requires s != [] && n == if |s| < 4 then |s| else 4
    ensures DecodeUnpadded(s).Some? <==> n >= 2 && InAlphabet(s[..n]) && DecodeUnpadded(s[n..]).Some?
    ensures DecodeUnpadded(s).Some? ==> |DecodeUnpadded(s).value| == n - 1 + |DecodeUnpadded(s[n..]).value|
  {
  }

  lemma {:induction false} DecodesIff(s: seq<Byte>)
    ensures DecodeUnpadded(s).Some? <==> InAlphabet(s) && |s| % 4 != 1
    ensures DecodeUnpadded(s).Some? ==> |DecodeUnpadded(s).value| == 6 * |s| / 8
  {
    if s == [] {
    } else if |s| < 4 {
      DecodesByChunk(s, |s|);
      assert s[..|s|] == s && s[|s|..] == [];
    } else {
      DecodesByChunk(s, 4);
      DecodesIff(s[4..]);
      InAlphabetSplits(s, 4);
      FourCharactersMore(|s| - 4);
    }
  }

  lemma FourCharactersMore(n: nat)
    ensures (n + 4) % 4 == n % 4 && 6 * (n + 4) / 8 == 6 * n / 8 + 3
  {
  }

  lemma SymbolUndoesValue(c: Byte)
    requires Value(c).Some?
    ensures Symbol(Value(c).value) == c
  {
  }

  lemma SymbolsOfValues(s: seq<Byte>)
    requires InAlphabet(s)
    ensures Symbols(Values(s)) == s
  {
    forall i | 0 <= i < |s| ensures Symbols(Values(s))[i] == s[i] {
      SymbolUndoesValue(s[i]);
    }
  }

  /** The encoder takes a full group of octets off the front, or a last short group. */
  lemma EncodeOfGroup(group: seq<Byte>, rest: seq<Byte>)
    requires 1 <= |group| <= 3 && (|group| < 3 ==> rest == [])
    ensures Encode(group + rest) == Symbols(EncodeGroup(group)) + Encode(rest)
  {
    var n := |group|;
    assert (group + rest)[..n] == group && (group + rest)[n..] == rest;
  }

  /** The value without the bits of the last character that stand for no octet. */
  function Cleared(v: Byte, n: nat): Byte {
    if n % 4 == 2 then v - v % 16 else if n % 4 == 3 then v - v % 4 else v
  }

  lemma GroupClears(vals: seq<Byte>)
    requires 2 <= |vals| <= 4 && forall i | 0 <= i < |vals| :: vals[i] < 64
    ensures EncodeGroup(DecodeGroup(vals)) == vals[|vals| - 1 := Cleared(vals[|vals| - 1], |vals|)]
  {
    var b := DecodeGroup(vals);
    assert b[0] / 4 == vals[0] && b[0] % 4 * 16 == vals[1] - vals[1] % 16;
    if |vals| >= 3 {
      assert b[0] % 4 * 16 + b[1] / 16 == vals[1];
      assert b[1] % 16 * 4 == vals[2] - vals[2] % 4;
    }
    if |vals| == 4 {
      assert b[1] % 16 * 4 + b[2] / 64 == vals[2] && b[2] % 64 == vals[3];
    }
  }

  /** The text with the spare bits of its last character cleared. */
  function ClearLast(s: seq<Byte>): seq<Byte>
    requires InAlphabet(s)
  {
    if s == [] then [] else s[|s| - 1 := Symbol(Cleared(Value(s[|s| - 1]).value, |s|))]
  }

  lemma ChunkClears(chunk: seq<Byte>)
    requires 2 <= |chunk| <= 4 && InAlphabet(chunk)
    ensures Symbols(EncodeGroup(DecodeGroup(Values(chunk)))) == ClearLast(chunk)
  {
    GroupClears(Values(chunk));
    SymbolsOfValues(chunk);
  }

  lemma FullChunkStays(chunk: seq<Byte>)
    requires |chunk| == 4 && InAlphabet(chunk)
    ensures ClearLast(chunk) == chunk
  {
    SymbolUndoesValue(chunk[3]);
  }

  lemma ClearLastOfConcat(chunk: seq<Byte>, tail: seq<Byte>)
    requires 1 <= |chunk| <= 4 && (|chunk| < 4 ==> tail == []) && InAlphabet(chunk) && InAlphabet(tail)
    ensures InAlphabet(chunk + tail)
    ensures ClearLast(chunk + tail) == ClearLast(chunk) + ClearLast(tail)
  {
    if tail == [] {
      assert chunk + tail == chunk && ClearLast(chunk) + [] == ClearLast(chunk);
    } else {
      var last := tail[|tail| - 1];
      var cleared := Symbol(Cleared(Value(last).value, |tail|));
      FullChunkStays(chunk);
      assert (chunk + tail)[|chunk + tail| - 1] == last && |chunk + tail| % 4 == |tail| % 4;
      assert (chunk + tail)[|chunk + tail| - 1 := cleared] == chunk + tail[|tail| - 1 := cleared];
    }
  }

  /** Re-encoding gives the text back with the spare bits of its last character cleared: decoding ignores them. */
  lemma {:induction false} ReencodedIs(s: seq<Byte>)
    requires DecodeUnpadded(s).Some?
    ensures InAlphabet(s) && Encode(DecodeUnpadded(s).value) == ClearLast(s)
  {
    DecodesIff(s);
    if s != [] {
      var n := if |s| < 4 then |s| else 4;
      var chunk, tail := s[..n], s[n..];
      ReencodedIs(tail);
      ChunkClears(chunk);
      EncodeOfGroup(DecodeGroup(Values(chunk)), DecodeUnpadded(tail).value);
      ClearLastOfConcat(chunk, tail);
      assert s == chunk + tail;
    }
  }

  /** So it gives the very text back exactly when these bits are zero. */
  lemma ReencodesIff(s: seq<Byte>)
    requires DecodeUnpadded(s).Some?
    ensures InAlphabet(s)
    ensures |Encode(DecodeUnpadded(s).value)| == |s|
    ensures Encode(DecodeUnpadded(s).value) == s <==> SpareBitsZero(s)
  {
    ReencodedIs(s);
    if s != [] {
      var last := s[|s| - 1];
      SymbolUndoesValue(last);
      assert ClearLast(s)[|s| - 1] == Symbol(Cleared(Value(last).value, |s|));
      assert Cleared(Value(last).value, |s|) == Value(last).value <==> SpareBitsZero(s);
    }
  }

  /** All `=` at the end are taken off, and nothing else. */
  lemma {:induction false} StripPaddingIs(s: seq<Byte>)
    ensures var r := StripPadding(s);
            && r <= s && (forall i | |r| <= i < |s| :: s[i] == 0x3D) && (r != [] ==> r[|r| - 1] != 0x3D)
  {
    if s != [] && s[|s| - 1] == PAD {
      StripPaddingIs(s[..|s| - 1]);
    }
  }
}
