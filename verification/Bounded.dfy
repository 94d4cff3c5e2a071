/** The 8 KiB bound on tool output, and the item lists it cuts. */
module Bounded {
  import opened Bytes
  import opened Utf8
  import Decimal

  const NEWLINE: Byte := 0x0A
  const OUTPUT_MAX_BYTES := 8 * 1024
  const MARKER_SIZE := 59
  /** Octets left for the text when the marker is there too. */
  const BODY_ROOM := OUTPUT_MAX_BYTES - MARKER_SIZE

  /** A line break, then U+2026 and the French notice with U+00E9 and U+2014. */
  function TruncationMarker(): seq<Byte> {
    [NEWLINE] + [0xE2, 0x80, 0xA6] + Ascii(" [sortie tronqu") + [0xC3, 0xA9] + Ascii("e ")
    + [0xE2, 0x80, 0x94] + Ascii(" plafond 8 KiB, suite non rendue]")
  }

  lemma MarkerIsValid()
    ensures |TruncationMarker()| == MARKER_SIZE
    ensures Valid(TruncationMarker())
  {
    AsciiIsValid([NEWLINE]);
    ValidConcat([NEWLINE], [0xE2, 0x80, 0xA6]);
    ThenAscii([NEWLINE] + [0xE2, 0x80, 0xA6], " [sortie tronqu");
    var a := [NEWLINE] + [0xE2, 0x80, 0xA6] + Ascii(" [sortie tronqu");
    ValidConcat(a, [0xC3, 0xA9]);
    ThenAscii(a + [0xC3, 0xA9], "e ");
    var b := a + [0xC3, 0xA9] + Ascii("e ");
    ValidConcat(b, [0xE2, 0x80, 0x94]);
    ThenAscii(b + [0xE2, 0x80, 0x94], " plafond 8 KiB, suite non rendue]");
  }

  lemma ThenAscii(a: seq<Byte>, s: string)
    requires Valid(a)
    ensures Valid(a + Ascii(s))
  {
    AsciiIsValid(Ascii(s));
    ValidConcat(a, Ascii(s));
  }

  /** `rfind('\n')`. */
  function LastNewline(s: seq<Byte>): (r: Option<nat>)
    ensures r.None? ==> NEWLINE !in s
    ensures r.Some? ==> r.value < |s| && s[r.value] == NEWLINE
    ensures r.Some? ==> forall i | r.value < i < |s| :: s[i] != NEWLINE
  {
    if s == [] then None
    else if s[|s| - 1] == NEWLINE then Some(|s| - 1)
    else LastNewline(s[..|s| - 1])
  }

  /** Where the body ends once the boundary walk is done. */
  function BodyEnd(text: seq<Byte>): nat {
    BoundaryBelow(text, BODY_ROOM)
  }

  /** The last line break past half of the body, or the whole body. */
  function Cut(text: seq<Byte>): (cut: nat)
    requires |text| > OUTPUT_MAX_BYTES
    ensures cut <= BodyEnd(text)
  {
    match LastNewline(text[..BodyEnd(text)])
    case Some(nl) => if nl > BodyEnd(text) / 2 then nl else BodyEnd(text)
    case None => BodyEnd(text)
  }

  function Bound(text: seq<Byte>): seq<Byte> {
    if |text| <= OUTPUT_MAX_BYTES then text else text[..Cut(text)] + TruncationMarker()
  }

  /** The loop that both walks of the source run. */
  method WalkToBoundary(text: seq<Byte>, start: nat) returns (at: nat)
    ensures at == BoundaryBelow(text, start)
  {
    at := start;
    while !IsBoundary(text, at)
      invariant BoundaryBelow(text, at) == BoundaryBelow(text, start)
      decreases at
    {
      at := at - 1;
    }
  }

  /** The routine of the source, with its two walks; the second never moves. */
  method BoundedText(text: seq<Byte>) returns (r: seq<Byte>)
    requires Valid(text)
    ensures r == Bound(text)
  {
    if |text| <= OUTPUT_MAX_BYTES {
      return text;
    }
    MarkerIsValid();
    var maxBody := WalkToBoundary(text, OUTPUT_MAX_BYTES - |TruncationMarker()|);
    var nl := LastNewline(text[..maxBody]);
    var cut := if nl.Some? && nl.value > maxBody / 2 then nl.value else maxBody;
    CutIsBoundary(text);
    cut := WalkToBoundary(text, cut);
    r := text[..cut] + TruncationMarker();
  }

  lemma CutIsBoundary(text: seq<Byte>)
    requires |text| > OUTPUT_MAX_BYTES
    ensures IsBoundary(text, Cut(text))
  {
    var body := text[..BodyEnd(text)];
    match LastNewline(body)
    case Some(nl) => assert body[nl] == text[nl];
    case None =>
  }

  /** Never more than 8 KiB, always well-formed, and bounding twice changes nothing. */
  lemma BoundIsSafe(text: seq<Byte>)
    requires Valid(text)
    ensures |Bound(text)| <= 8192
    ensures Valid(Bound(text))
    ensures Bound(Bound(text)) == Bound(text)
    ensures Bound(text) == text <==> |text| <= 8192
  {
    if |text| > OUTPUT_MAX_BYTES {
      MarkerIsValid();
      CutIsBoundary(text);
      ValidSplit(text, Cut(text));
      ValidConcat(text[..Cut(text)], TruncationMarker());
    }
  }

  /** A cut text keeps a prefix: all of the room but three octets, or a line end past half of it. */
  lemma CutKeepsHalf(text: seq<Byte>)
    requires Valid(text) && |text| > OUTPUT_MAX_BYTES
    ensures Bound(text) == text[..Cut(text)] + TruncationMarker()
    ensures BODY_ROOM - 3 <= BodyEnd(text) <= BODY_ROOM
    ensures 2 * Cut(text) >= BodyEnd(text)
    ensures Cut(text) == BodyEnd(text) || text[Cut(text)] == NEWLINE
  {
    BoundaryBelowIsNear(text, BODY_ROOM);
    var body := text[..BodyEnd(text)];
    match LastNewline(body)
    case Some(nl) => assert body[nl] == text[nl];
    case None =>
  }

  /** A line break past half of the body. */
  ghost predicate IsLateBreak(text: seq<Byte>, p: nat) {
    BodyEnd(text) / 2 < p < BodyEnd(text) <= |text| && text[p] == 0x0A
  }

  /** The cut is the last line break past half of the body, or the end of the body when there is none. */
  lemma CutIsLastBreak(text: seq<Byte>)
    requires |text| > OUTPUT_MAX_BYTES
    ensures if exists p: nat :: IsLateBreak(text, p)
            then IsLateBreak(text, Cut(text)) && forall p: nat | IsLateBreak(text, p) :: p <= Cut(text)
            else Cut(text) == BodyEnd(text)
  {
    var body := text[..BodyEnd(text)];
    var last := LastNewline(body);
    forall p: nat | IsLateBreak(text, p) ensures last.Some? && p <= last.value {
      assert body[p] == NEWLINE;
    }
    if last.Some? && last.value > BodyEnd(text) / 2 {
      assert IsLateBreak(text, last.value);
    }
  }

  lemma EncodeOfChar(ch: char)
    ensures Encode([ch]) == EncodeChar(ch)
  {
    EncodeByFirst(ch, "");
    assert [ch] + "" == [ch] && EncodeChar(ch) + [] == EncodeChar(ch);
  }

  ghost predicate AllAscii(s: string) { forall i | 0 <= i < |s| :: s[i] < '\U{80}' }

  lemma PieceEncodes(front: string, ch: char, s: string)
    requires AllAscii(s)
    ensures Encode(front + [ch] + s) == Encode(front) + EncodeChar(ch) + Ascii(s)
  {
    EncodeOfAscii(s);
    EncodeOfChar(ch);
    EncodeOfConcat(front, [ch]);
    EncodeOfConcat(front + [ch], s);
  }

  lemma PiecesEncode(x: char, a: string, y: char, b: string, z: char, c: string)
    requires AllAscii(a) && AllAscii(b) && AllAscii(c)
    ensures Encode("\n" + [x] + a + [y] + b + [z] + c)
         == [NEWLINE] + EncodeChar(x) + Ascii(a) + EncodeChar(y) + Ascii(b) + EncodeChar(z) + Ascii(c)
  {
    EncodeOfChar('\n');
    PieceEncodes("\n", x, a);
    PieceEncodes("\n" + [x] + a, y, b);
    PieceEncodes("\n" + [x] + a + [y] + b, z, c);
  }

  /** The marker is the encoding of this notice. */
  lemma MarkerIs()
    ensures TruncationMarker()
         == Encode("\n" + "\U{2026}" + " [sortie tronqu" + "\U{E9}" + "e " + "\U{2014}"
                   + " plafond 8 KiB, suite non rendue]")
  {
    PiecesEncode('\U{2026}', " [sortie tronqu", '\U{E9}', "e ", '\U{2014}', " plafond 8 KiB, suite non rendue]");
  }

  // ----- lists of items, one line each -----

  /** `join("\n")`. */
  function Join(lines: seq<seq<Byte>>): seq<Byte> {
    if lines == [] then []
    else if |lines| == 1 then lines[0]
    else lines[0] + [NEWLINE] + Join(lines[1..])
  }

  function Header(title: seq<Byte>, count: nat): seq<Byte> {
    title + Ascii(" (") + Ascii(Decimal.Print(count)) + Ascii("):")
  }

  /** The counted header and one line per rendered item. */
  function ItemLines(title: seq<Byte>, items: seq<seq<Byte>>): seq<seq<Byte>> {
    [Header(title, |items|)] + items
  }

  method RenderItems(title: seq<Byte>, items: seq<seq<Byte>>) returns (text: seq<Byte>)
    ensures text == Join(ItemLines(title, items))
  {
    var lines := [Header(title, |items|)];
    for i := 0 to |items|
      invariant lines == [Header(title, |items|)] + items[..i]
    {
      lines := lines + [items[i]];
    }
    assert items[..|items|] == items;
    text := Join(lines);
  }

  /** Each item on a line of its own. */
  function Listed(items: seq<seq<Byte>>): seq<Byte> {
    if items == [] then [] else [0x0A] + items[0] + Listed(items[1..])
  }

  ghost predicate IsNumeral(s: seq<Byte>, n: nat) {
    exists d: string ::
      && Decimal.Clean(d) && Decimal.Parse(d) == n
      && |s| == |d| && forall i | 0 <= i < |d| :: s[i] == d[i] as int
  }

  lemma {:induction false} JoinIsListed(first: seq<Byte>, items: seq<seq<Byte>>)
    ensures Join([first] + items) == first + Listed(items)
    decreases |items|
  {
    var lines := [first] + items;
    assert lines[1..] == items;
    if items != [] {
      JoinIsListed(items[0], items[1..]);
      assert items == [items[0]] + items[1..];
      assert first + [NEWLINE] + (items[0] + Listed(items[1..])) == first + ([0x0A] + items[0] + Listed(items[1..]));
    }
  }

  /** The title, the number of the items in parentheses, a colon, and each item on a line of its own. */
  lemma RenderedIs(title: seq<Byte>, items: seq<seq<Byte>>) returns (numeral: seq<Byte>)
    ensures IsNumeral(numeral, |items|)
    ensures Join(ItemLines(title, items)) == title + [0x20, 0x28] + numeral + [0x29, 0x3A] + Listed(items)
  {
    var d := Decimal.Print(|items|);
    Decimal.ParseUndoesPrint(|items|);
    numeral := Ascii(d);
    assert forall i | 0 <= i < |d| :: Decimal.IsDigit(d[i]);
    assert Ascii(" (") == [0x20, 0x28] && Ascii("):") == [0x29, 0x3A];
    JoinIsListed(Header(title, |items|), items);
  }

  ghost predicate NoNewlines(lines: seq<seq<Byte>>) {
    forall i | 0 <= i < |lines| :: NEWLINE !in lines[i]
  }

  /** A separator of joined lines ends a whole number of lines. */
  lemma {:induction false} NewlineEndsLines(lines: seq<seq<Byte>>, p: nat) returns (j: nat)
    requires NoNewlines(lines)
    requires p < |Join(lines)| && Join(lines)[p] == NEWLINE
    ensures 1 <= j < |lines| && Join(lines)[..p] == Join(lines[..j])
    decreases |lines|
  {
    var first := lines[0];
    if |lines| == 1 {
      assert false;
    }
    var rest := Join(lines[1..]);
    assert Join(lines) == first + [NEWLINE] + rest;
    if p < |first| {
      assert false;
    } else if p == |first| {
      j := 1;
      assert lines[..1] == [first];
      assert (first + [NEWLINE] + rest)[..p] == first;
    } else {
      var i := NewlineEndsLines(lines[1..], p - |first| - 1);
      j := i + 1;
      assert lines[..j][1..] == lines[1..][..i];
      assert (first + [NEWLINE] + rest)[..p] == first + [NEWLINE] + rest[..p - |first| - 1];
    }
  }

  /** Joining more lines extends the joined text by a separator. */
  lemma {:induction false} JoinOfPrefix(lines: seq<seq<Byte>>, j: nat)
    requires 1 <= j < |lines|
    ensures |Join(lines[..j])| < |Join(lines)| && Join(lines)[|Join(lines[..j])|] == NEWLINE
    ensures Join(lines[..j]) <= Join(lines)
    decreases j
  {
    var first, rest := lines[0], Join(lines[1..]);
    assert Join(lines) == first + [NEWLINE] + rest;
    if j == 1 {
      assert lines[..1] == [first];
    } else {
      JoinOfPrefix(lines[1..], j - 1);
      assert lines[..j][1..] == lines[1..][..j - 1];
      assert Join(lines[..j]) == first + [NEWLINE] + Join(lines[1..][..j - 1]);
    }
  }

  /** Header and items hold no line break. */
  lemma HeaderHasNoNewline(title: seq<Byte>, count: nat)
    requires NEWLINE !in title
    ensures NEWLINE !in Header(title, count)
  {
    Decimal.ParseUndoesPrint(count);
    var digits := Ascii(Decimal.Print(count));
    assert forall i | 0 <= i < |digits| :: Decimal.IsDigit(Decimal.Print(count)[i]) && digits[i] >= 0x30;
    assert NEWLINE !in Ascii(" (") && NEWLINE !in Ascii("):");
  }

  /**
   When a line break lies past half of the body, the bounded list is the header and the first
   `k` items, none of them cut, and `k` is as large as the body allows.
   */
  lemma WholeItemsSurvive(title: seq<Byte>, items: seq<seq<Byte>>) returns (k: nat)
    requires NEWLINE !in title && NoNewlines(items)
    requires var text := Join(ItemLines(title, items));
             && |text| > OUTPUT_MAX_BYTES
             && exists p | BodyEnd(text) / 2 < p < BodyEnd(text) :: text[p] == NEWLINE
    ensures k < |items|
    ensures var text := Join(ItemLines(title, items));
            && Bound(text) == Join([Header(title, |items|)] + items[..k]) + TruncationMarker()
            && |Join([Header(title, |items|)] + items[..k])| < BodyEnd(text)
            && |Join([Header(title, |items|)] + items[..k + 1])| >= BodyEnd(text)
  {
    var lines := ItemLines(title, items);
    var text := Join(lines);
    HeaderHasNoNewline(title, |items|);
    CutIsLastBreak(text);
    var p :| BodyEnd(text) / 2 < p < BodyEnd(text) && text[p] == NEWLINE;
    assert IsLateBreak(text, p);
    var j := NewlineEndsLines(lines, Cut(text));
    k := j - 1;
    assert lines[..j] == [Header(title, |items|)] + items[..k];
    var more := [Header(title, |items|)] + items[..k + 1];
    assert more == lines[..j + 1];
    if j + 1 < |lines| {
      JoinOfPrefix(lines, j + 1);
      JoinOfPrefix(more, j);
      assert more[..j] == lines[..j];
      var q := |Join(more)|;
      assert q > Cut(text) && text[q] == NEWLINE;
      assert q < BodyEnd(text) ==> IsLateBreak(text, q);
    } else {
      assert more == lines;
    }
  }
}
