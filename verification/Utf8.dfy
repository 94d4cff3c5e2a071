/** Well-formed UTF-8 (section 4 of RFC 3629) and the character boundaries of a Rust `str`. */
module Utf8 {
  import opened Bytes

  predicate IsTail(b: Byte) { 0x80 <= b <= 0xBF }

  /** Length of the well-formed character that `s` starts with; 0 when it starts with none. */
  function CharLen(s: seq<Byte>): (n: nat)
    ensures n <= 4 && n <= |s|
    ensures forall i | 1 <= i < n :: IsTail(s[i])
    ensures n > 0 ==> !IsTail(s[0])
  {
    if |s| >= 1 && s[0] <= 0x7F then 1
    else if |s| >= 2 && 0xC2 <= s[0] <= 0xDF && IsTail(s[1]) then 2
    else if |s| >= 3 && IsTail(s[1]) && IsTail(s[2]) &&
            (|| (s[0] == 0xE0 && 0xA0 <= s[1])
             || 0xE1 <= s[0] <= 0xEC
             || (s[0] == 0xED && s[1] <= 0x9F)
             || 0xEE <= s[0] <= 0xEF) then 3
    else if |s| >= 4 && IsTail(s[1]) && IsTail(s[2]) && IsTail(s[3]) &&
            (|| (s[0] == 0xF0 && 0x90 <= s[1])
             || 0xF1 <= s[0] <= 0xF3
             || (s[0] == 0xF4 && s[1] <= 0x8F)) then 4
    else 0
  }

  predicate Valid(s: seq<Byte>) {
    s == [] || (CharLen(s) > 0 && Valid(s[CharLen(s)..]))
  }

  /** `str::is_char_boundary`. */
  predicate IsBoundary(s: seq<Byte>, i: nat) {
    i == 0 || i == |s| || (i < |s| && !IsTail(s[i]))
  }

  /** The first character depends on its own octets only. */
  lemma CharLenOfPrefix(s: seq<Byte>, i: nat)
    requires CharLen(s) <= i <= |s|
    requires CharLen(s) > 0
    ensures CharLen(s[..i]) == CharLen(s)
  {
  }

  /** Cutting well-formed text at a boundary leaves two well-formed texts. */
  lemma {:induction false} ValidSplit(s: seq<Byte>, i: nat)
    requires Valid(s) && i <= |s| && IsBoundary(s, i)
    ensures Valid(s[..i]) && Valid(s[i..])
    decreases |s|
  {
    if i == 0 {
      assert s[0..] == s;
    } else {
      var n := CharLen(s);
      assert i >= n;
      var t := s[n..];
      assert IsBoundary(t, i - n) by {
        if i < |s| { assert t[i - n] == s[i]; }
      }
      ValidSplit(t, i - n);
      CharLenOfPrefix(s, i);
      assert s[..i][n..] == t[..i - n];
      assert s[i..] == t[i - n..];
    }
  }

  /** Two well-formed texts, one after the other, are well-formed. */
  lemma {:induction false} ValidConcat(a: seq<Byte>, b: seq<Byte>)
    requires Valid(a) && Valid(b)
    ensures Valid(a + b)
    decreases |a|
  {
    if a == [] {
      assert a + b == b;
    } else {
      var n := CharLen(a);
      ValidConcat(a[n..], b);
      CutsOfConcat(a, b, n);
      PrefixCharLen(a, a + b);
    }
  }

  lemma CutsOfConcat(a: seq<Byte>, b: seq<Byte>, n: nat)
    requires n <= |a|
    ensures (a + b)[..|a|] == a && (a + b)[n..] == a[n..] + b
  {
  }

  lemma PrefixCharLen(a: seq<Byte>, s: seq<Byte>)
    requires CharLen(a) > 0 && |a| <= |s| && s[..|a|] == a
    ensures CharLen(s) == CharLen(a)
  {
    assert forall i | 0 <= i < |a| :: s[i] == a[i];
  }

  /** The walk of the source: down from `i` to a boundary. */
  function BoundaryBelow(s: seq<Byte>, i: nat): (j: nat)
    ensures j <= i && IsBoundary(s, j)
    ensures forall k | j < k <= i :: !IsBoundary(s, k)
  {
    if IsBoundary(s, i) then i else BoundaryBelow(s, i - 1)
  }

  /** In well-formed text the walk gives up at most three octets. */
  lemma {:induction false} BoundaryIsNear(s: seq<Byte>, i: nat)
    requires Valid(s) && i <= |s|
    ensures exists j: nat | i - 3 <= j <= i :: IsBoundary(s, j)
    decreases |s|
  {
    var n := CharLen(s);
    if i < n || s == [] {
      assert i <= 3 && IsBoundary(s, 0);
    } else {
      var t := s[n..];
      BoundaryIsNear(t, i - n);
      var j: nat :| i - n - 3 <= j <= i - n && IsBoundary(t, j);
      assert IsBoundary(s, n + j) by {
        if j < |t| { assert t[j] == s[n + j]; }
      }
    }
  }

  lemma BoundaryBelowIsNear(s: seq<Byte>, i: nat)
    requires Valid(s) && i <= |s|
    ensures i - 3 <= BoundaryBelow(s, i) <= i
  {
    BoundaryIsNear(s, i);
  }

  /** A string of ASCII characters as octets (anything else becomes `?`). */
  function Ascii(s: string): (r: seq<Byte>)
    ensures |r| == |s| && forall i | 0 <= i < |r| :: r[i] < 0x80
  {
    seq(|s|, i requires 0 <= i < |s| => if s[i] as int < 0x80 then s[i] as int else 0x3F)
  }

  lemma {:induction false} AsciiIsValid(s: seq<Byte>)
    requires forall i | 0 <= i < |s| :: s[i] < 0x80
    ensures Valid(s)
  {
    if s != [] {
      AsciiIsValid(s[1..]);
    }
  }

  // ----- the encoder of RFC 3629, section 3 -----

  /** A character, which is never a surrogate, as one to four octets. */
  function EncodeChar(ch: char): (r: seq<Byte>)
    ensures 1 <= |r| <= 4
  {
    var c := ch as int;
    if c < 0x80 then [c]
    else if c < 0x800 then [0xC0 + c / 0x40, 0x80 + c % 0x40]
    else if c < 0x10000 then [0xE0 + c / 0x1000, 0x80 + c / 0x40 % 0x40, 0x80 + c % 0x40]
    else [0xF0 + c / 0x40000, 0x80 + c / 0x1000 % 0x40, 0x80 + c / 0x40 % 0x40, 0x80 + c % 0x40]
  }

  function Encode(text: string): seq<Byte> {
    if text == "" then [] else EncodeChar(text[0]) + Encode(text[1..])
  }

  /** What an encoded character starts is recognised with its length. */
  lemma EncodedCharLen(ch: char, rest: seq<Byte>)
    ensures CharLen(EncodeChar(ch) + rest) == |EncodeChar(ch)|
  {
    var s, e := EncodeChar(ch) + rest, EncodeChar(ch);
    assert forall i | 0 <= i < |e| :: s[i] == e[i];
  }

  /** The digits of a number in base 64. */
  lemma SixBits(x: nat, y: nat)
    requires y < 0x40
    ensures (x * 0x40 + y) / 0x40 == x && (x * 0x40 + y) % 0x40 == y
  {
  }

  lemma TwelveBits(x: nat, y: nat, z: nat)
    requires y < 0x40 && z < 0x40
    ensures var c := x * 0x1000 + y * 0x40 + z; c / 0x1000 == x && c / 0x40 % 0x40 == y && c % 0x40 == z
  {
    SixBits(x * 0x40 + y, z);
    SixBits(x, y);
  }

  lemma EighteenBits(x: nat, y: nat, z: nat, w: nat)
    requires y < 0x40 && z < 0x40 && w < 0x40
    ensures var c := x * 0x40000 + y * 0x1000 + z * 0x40 + w;
            c / 0x40000 == x && c / 0x1000 % 0x40 == y && c / 0x40 % 0x40 == z && c % 0x40 == w
  {
    TwelveBits(x * 0x40 + y, z, w);
    SixBits(x, y);
    assert (x * 0x40000 + y * 0x1000 + z * 0x40 + w) / 0x40000 == x;
  }

  lemma TwoOctets(x: nat, y: nat) returns (ch: char)
    requires 2 <= x < 0x20 && y < 0x40
    ensures EncodeChar(ch) == [0xC0 + x, 0x80 + y]
  {
    ch := (x * 0x40 + y) as char;
    SixBits(x, y);
  }

  lemma ThreeOctets(x: nat, y: nat, z: nat) returns (ch: char)
    requires x < 0x10 && y < 0x40 && z < 0x40 && (x == 0 ==> y >= 0x20) && (x == 0xD ==> y < 0x20)
    ensures EncodeChar(ch) == [0xE0 + x, 0x80 + y, 0x80 + z]
  {
    ch := (x * 0x1000 + y * 0x40 + z) as char;
    TwelveBits(x, y, z);
  }

  lemma FourOctets(x: nat, y: nat, z: nat, w: nat) returns (ch: char)
    requires x < 5 && y < 0x40 && z < 0x40 && w < 0x40 && (x == 0 ==> y >= 0x10) && (x == 4 ==> y < 0x10)
    ensures EncodeChar(ch) == [0xF0 + x, 0x80 + y, 0x80 + z, 0x80 + w]
  {
    ch := (x * 0x40000 + y * 0x1000 + z * 0x40 + w) as char;
    EighteenBits(x, y, z, w);
  }

  /** What is recognised as a character encodes one. */
  lemma RecognisedIsEncoded(s: seq<Byte>) returns (ch: char)
    requires CharLen(s) > 0
    ensures s[..CharLen(s)] == EncodeChar(ch)
  {
    var n := CharLen(s);
    if n == 1 {
      ch := s[0] as char;
    } else if n == 2 {
      ch := TwoOctets(s[0] - 0xC0, s[1] - 0x80);
    } else if n == 3 {
      ch := ThreeOctets(s[0] - 0xE0, s[1] - 0x80, s[2] - 0x80);
    } else {
      ch := FourOctets(s[0] - 0xF0, s[1] - 0x80, s[2] - 0x80, s[3] - 0x80);
    }
  }

  lemma EncodeByFirst(ch: char, text: string)
    ensures Encode([ch] + text) == EncodeChar(ch) + Encode(text)
  {
    assert ([ch] + text)[1..] == text;
  }

  lemma {:induction false} EncodedIsValid(text: string)
    ensures Valid(Encode(text))
  {
    if text != "" {
      var head, tail := EncodeChar(text[0]), Encode(text[1..]);
      EncodedIsValid(text[1..]);
      EncodedCharLen(text[0], tail);
      assert (head + tail)[|head|..] == tail;
    }
  }

  lemma {:induction false} ValidIsEncoded(s: seq<Byte>) returns (text: string)
    requires Valid(s)
    ensures s == Encode(text)
    decreases |s|
  {
    text := "";
    if s != [] {
      var n := CharLen(s);
      var ch := RecognisedIsEncoded(s);
      var rest := ValidIsEncoded(s[n..]);
      EncodeByFirst(ch, rest);
      assert s == s[..n] + s[n..];
      text := [ch] + rest;
    }
  }

  /** Octets are well-formed exactly when they encode a text. */
  lemma ValidIff(s: seq<Byte>)
    ensures Valid(s) <==> exists text :: s == Encode(text)
  {
    if Valid(s) {
      var text := ValidIsEncoded(s);
    }
    if text :| s == Encode(text) {
      EncodedIsValid(text);
    }
  }

  lemma {:induction false} EncodeOfConcat(a: string, b: string)
    ensures Encode(a + b) == Encode(a) + Encode(b)
  {
    if a == "" {
      assert a + b == b;
    } else {
      assert (a + b)[1..] == a[1..] + b;
      EncodeOfConcat(a[1..], b);
    }
  }

  lemma {:induction false} EncodeOfAscii(s: string)
    requires forall i | 0 <= i < |s| :: s[i] < '\U{80}'
    ensures Encode(s) == Ascii(s)
  {
    if s != "" {
      EncodeOfAscii(s[1..]);
      assert Ascii(s) == EncodeChar(s[0]) + Ascii(s[1..]);
    }
  }
}
