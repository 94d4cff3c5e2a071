/**
 The percent-encoder of git paths (`encode_git_path`), against a decoder written from
 section 2.1 of RFC 3986.
 */
module GitPath {
  import opened Bytes

  const PERCENT: Byte := 0x25
  const SLASH: Byte := 0x2F

  /** `GIT_ENCODE_SET`: C0 controls, DEL, every non-ASCII octet, the space and `%`. */
  predicate InEncodeSet(b: Byte) {
    b < 0x20 || b > 0x7E || b == 0x20 || b == PERCENT
  }

  /** Upper-case hexadecimal digit. */
  function HexDigit(n: int): (d: Byte)
    requires 0 <= n < 16
    ensures 0x30 <= d <= 0x39 || 0x41 <= d <= 0x46
  {
    if n < 10 then 0x30 + n else 0x41 + n - 10
  }

  function EncodeByte(b: Byte): seq<Byte> {
    if InEncodeSet(b) then [PERCENT, HexDigit(b / 16), HexDigit(b % 16)] else [b]
  }

  function EncodeGitPath(path: seq<Byte>): seq<Byte> {
    if path == [] then [] else EncodeByte(path[0]) + EncodeGitPath(path[1..])
  }

  // ----- RFC 3986, section 2.1: a decoder that accepts both cases of hexadecimal digit -----

  function HexValue(d: Byte): (v: Option<int>)
    ensures v.Some? ==> 0 <= v.value < 16
  {
    if 0x30 <= d <= 0x39 then Some(d - 0x30)
    else if 0x41 <= d <= 0x46 then Some(d - 0x41 + 10)
    else if 0x61 <= d <= 0x66 then Some(d - 0x61 + 10)
    else None
  }

  /** `None` on a `%` that two hexadecimal digits do not follow. */
  function Decode(s: seq<Byte>): Option<seq<Byte>> {
    if s == [] then Some([])
    else if s[0] != PERCENT then
      match Decode(s[1..])
      case Some(rest) => Some([s[0]] + rest)
      case None => None
    else if |s| < 3 || HexValue(s[1]).None? || HexValue(s[2]).None? then None
    else
      match Decode(s[3..])
      case Some(rest) => Some([HexValue(s[1]).value * 16 + HexValue(s[2]).value] + rest)
      case None => None
  }

  lemma {:induction false} DecodeUndoesEncode(path: seq<Byte>)
    ensures Decode(EncodeGitPath(path)) == Some(path)
  {
    if path != [] {
      var head, tail := EncodeByte(path[0]), EncodeGitPath(path[1..]);
      DecodeUndoesEncode(path[1..]);
      assert (head + tail)[|head|..] == tail;
      assert path == [path[0]] + path[1..];
    }
  }

  /** Two paths with the same encoding are the same path. */
  lemma EncodeIsInjective(a: seq<Byte>, b: seq<Byte>)
    requires EncodeGitPath(a) == EncodeGitPath(b)
    ensures a == b
  {
    DecodeUndoesEncode(a);
    DecodeUndoesEncode(b);
  }

  lemma {:induction false} EncodeDistributes(a: seq<Byte>, b: seq<Byte>)
    ensures EncodeGitPath(a + b) == EncodeGitPath(a) + EncodeGitPath(b)
  {
    if a == [] {
      assert a + b == b;
    } else {
      assert (a + b)[1..] == a[1..] + b;
      EncodeDistributes(a[1..], b);
    }
  }

  /** The encoding is printable ASCII without the space. */
  lemma {:induction false} EncodedRange(path: seq<Byte>)
    ensures forall i | 0 <= i < |EncodeGitPath(path)| :: 0x21 <= EncodeGitPath(path)[i] <= 0x7E
  {
    if path != [] {
      EncodedRange(path[1..]);
    }
  }

  /** A printable octet that is neither the space nor `%`. */
  predicate IsPlain(b: Byte) { 0x21 <= b <= 0x7E && b != 0x25 }

  /** A path is left as it is exactly when it is all plain. */
  lemma {:induction false} UnchangedIff(path: seq<Byte>)
    ensures |EncodeGitPath(path)| >= |path|
    ensures EncodeGitPath(path) == path <==> forall i | 0 <= i < |path| :: IsPlain(path[i])
  {
    if path != [] {
      UnchangedIff(path[1..]);
      var head, tail := EncodeByte(path[0]), EncodeGitPath(path[1..]);
      assert path == [path[0]] + path[1..];
      if InEncodeSet(path[0]) {
        assert |EncodeGitPath(path)| > |path| && !IsPlain(path[0]);
      } else {
        assert (head + tail)[1..] == tail;
        PlainByFirst(path);
      }
    }
  }

  lemma PlainByFirst(path: seq<Byte>)
    requires path != []
    ensures (forall i | 0 <= i < |path| :: IsPlain(path[i]))
       <==> IsPlain(path[0]) && forall i | 0 <= i < |path[1..]| :: IsPlain(path[1..][i])
  {
    if IsPlain(path[0]) && forall i | 0 <= i < |path[1..]| :: IsPlain(path[1..][i]) {
      forall i | 0 <= i < |path| ensures IsPlain(path[i]) {
        assert i > 0 ==> path[i] == path[1..][i - 1];
      }
    }
  }

  const HEX_DIGITS: seq<Byte> := [0x30, 0x31, 0x32, 0x33, 0x34, 0x35, 0x36, 0x37, 0x38, 0x39,
                                  0x41, 0x42, 0x43, 0x44, 0x45, 0x46]

  lemma EncodedByteIs(b: Byte)
    ensures EncodeByte(b) == if IsPlain(b) then [b] else [0x25, HEX_DIGITS[b / 16], HEX_DIGITS[b % 16]]
  {
    assert HexDigit(b / 16) == HEX_DIGITS[b / 16] && HexDigit(b % 16) == HEX_DIGITS[b % 16];
  }

  /** Octet by octet: a plain one stays, any other becomes `%` and two upper-case hexadecimal digits. */
  lemma EncodedOctet(before: seq<Byte>, b: Byte, behind: seq<Byte>)
    ensures EncodeGitPath(before + [b] + behind)
         == EncodeGitPath(before)
            + (if IsPlain(b) then [b] else [0x25, HEX_DIGITS[b / 16], HEX_DIGITS[b % 16]])
            + EncodeGitPath(behind)
  {
    EncodeDistributes(before + [b], behind);
    EncodeDistributes(before, [b]);
    EncodeByFirst(b, []);
    EncodedByteIs(b);
  }

  // ----- segments -----

  /** The `/`-separated segments of `s`; there is always at least one. */
  function Segments(s: seq<Byte>): (r: seq<seq<Byte>>)
    ensures |r| >= 1
  {
    if s == [] then [[]]
    else
      var rest := Segments(s[1..]);
      if s[0] == SLASH then [[]] + rest else [[s[0]] + rest[0]] + rest[1..]
  }

  /** The segments with a `/` between them. */
  function Path(parts: seq<seq<Byte>>): seq<Byte>
    requires parts != []
  {
    if |parts| == 1 then parts[0] else parts[0] + [0x2F] + Path(parts[1..])
  }

  /** The segments hold no `/`, and with one between them they are the string. */
  lemma {:induction false} SegmentsAre(s: seq<Byte>)
    ensures Path(Segments(s)) == s
    ensures forall i | 0 <= i < |Segments(s)| :: 0x2F !in Segments(s)[i]
  {
    if s != [] {
      var rest := Segments(s[1..]);
      SegmentsAre(s[1..]);
      assert s == [s[0]] + s[1..];
      if s[0] == SLASH {
        assert Segments(s)[1..] == rest;
      } else {
        assert Segments(s)[1..] == rest[1..];
        assert |rest| > 1 ==>
                 [s[0]] + (rest[0] + [0x2F] + Path(rest[1..])) == ([s[0]] + rest[0]) + [0x2F] + Path(rest[1..]);
      }
    }
  }

  /** A string without `/` in front of `s` lengthens the first segment only. */
  lemma {:induction false} SegmentsOfPrefix(p: seq<Byte>, s: seq<Byte>)
    requires SLASH !in p
    ensures Segments(p + s) == [p + Segments(s)[0]] + Segments(s)[1..]
  {
    if p == [] {
      assert p + s == s;
      assert p + Segments(s)[0] == Segments(s)[0];
    } else {
      assert (p + s)[1..] == p[1..] + s;
      SegmentsOfPrefix(p[1..], s);
      assert [p[0]] + (p[1..] + Segments(s)[0]) == p + Segments(s)[0];
    }
  }

  /** Encoding keeps the number and the order of the segments: it encodes each in place. */
  lemma {:induction false} EncodeKeepsSegments(path: seq<Byte>)
    ensures |Segments(EncodeGitPath(path))| == |Segments(path)|
    ensures forall i | 0 <= i < |Segments(path)| ::
              Segments(EncodeGitPath(path))[i] == EncodeGitPath(Segments(path)[i])
  {
    if path != [] {
      var head, tail := EncodeByte(path[0]), EncodeGitPath(path[1..]);
      EncodeKeepsSegments(path[1..]);
      if path[0] == SLASH {
        assert (head + tail)[1..] == tail;
      } else {
        SegmentsOfPrefix(head, tail);
        EncodeByFirst(path[0], Segments(path[1..])[0]);
      }
    }
  }

  lemma EncodeByFirst(c: Byte, s: seq<Byte>)
    ensures EncodeGitPath([c] + s) == EncodeByte(c) + EncodeGitPath(s)
  {
    assert ([c] + s)[1..] == s;
  }
}
