/**
 The laws assumed of the YAML library can be met: a printer and two parsers that obey them exist,
 one that drops the last line feed of a document and one that does not. The printer writes a
 prefix code in the digits 0 and 1, so that what it prints is one line.
 */
module YamlLaws {
  import opened Bytes
  import opened Domain
  import opened Files
  import opened Json
  import Frontmatter
  import Strings

  function NatCode(n: nat): string { if n == 0 then "0" else "1" + NatCode(n - 1) }

  function IntCode(i: int): string { NatCode(if i >= 0 then 2 * i else -2 * i - 1) }

  function StrCode(s: string): string {
    if s == "" then "0" else "1" + NatCode(s[0] as int) + StrCode(s[1..])
  }

  function Code(j: Json): string
    decreases j, 1, 0
  {
    match j
    case Null => NatCode(0)
    case Bool(b) => NatCode(if b then 1 else 2)
    case Num(Int(i)) => NatCode(3) + IntCode(i)
    case Num(Float(r)) => NatCode(4) + IntCode(r.mantissa) + IntCode(r.exponent)
    case Str(s) => NatCode(5) + StrCode(s)
    case Arr(items) => NatCode(6) + ItemsCode(j, items)
    case Obj(fields) => NatCode(7) + FieldsCode(j, fields, Strings.InOrder(fields.Keys))
  }

  /** The items are parts of `whole`. */
  function ItemsCode(whole: Json, items: seq<Json>): string
    requires forall x | x in items :: x < whole
    decreases whole, 0, |items|
  {
    if items == [] then "0"
    else
      assert items[0] in items && forall x | x in items[1..] :: x in items;
      "1" + Code(items[0]) + ItemsCode(whole, items[1..])
  }

  function FieldsCode(whole: Json, fields: Fields, keys: seq<string>): string
    requires forall k | k in fields :: fields[k] < whole
    requires forall k | k in keys :: k in fields
    decreases whole, 0, |keys|
  {
    if keys == [] then "0"
    else "1" + StrCode(keys[0]) + Code(fields[keys[0]]) + FieldsCode(whole, fields, keys[1..])
  }

  // ----- a prefix code: what follows a code word does not matter to reading it -----

  lemma {:induction false} NatPrefix(n: nat, m: nat, a: string, b: string)
    requires NatCode(n) + a == NatCode(m) + b
    ensures n == m && a == b
  {
    var s, t := NatCode(n) + a, NatCode(m) + b;
    assert s[0] == NatCode(n)[0] && t[0] == NatCode(m)[0];
    if n == 0 {
      assert s[1..] == a && t[1..] == b;
    } else {
      assert s[1..] == NatCode(n - 1) + a && t[1..] == NatCode(m - 1) + b;
      NatPrefix(n - 1, m - 1, a, b);
    }
  }

  lemma IntPrefix(i: int, k: int, a: string, b: string)
    requires IntCode(i) + a == IntCode(k) + b
    ensures i == k && a == b
  {
    NatPrefix(if i >= 0 then 2 * i else -2 * i - 1, if k >= 0 then 2 * k else -2 * k - 1, a, b);
  }

  lemma {:induction false} StrPrefix(s: string, t: string, a: string, b: string)
    requires StrCode(s) + a == StrCode(t) + b
    ensures s == t && a == b
  {
    var p, q := StrCode(s) + a, StrCode(t) + b;
    assert p[0] == StrCode(s)[0] && q[0] == StrCode(t)[0];
    if s == "" {
      assert p[1..] == a && q[1..] == b;
    } else {
      assert p[1..] == NatCode(s[0] as int) + (StrCode(s[1..]) + a);
      assert q[1..] == NatCode(t[0] as int) + (StrCode(t[1..]) + b);
      NatPrefix(s[0] as int, t[0] as int, StrCode(s[1..]) + a, StrCode(t[1..]) + b);
      StrPrefix(s[1..], t[1..], a, b);
      assert s == [s[0]] + s[1..] && t == [t[0]] + t[1..];
    }
  }

  function Tag(j: Json): nat {
    match j
    case Null => 0
    case Bool(b) => if b then 1 else 2
    case Num(Int(_)) => 3
    case Num(Float(_)) => 4
    case Str(_) => 5
    case Arr(_) => 6
    case Obj(_) => 7
  }

  /** The code behind the tag. */
  function Payload(j: Json): string {
    match j
    case Null => ""
    case Bool(_) => ""
    case Num(Int(i)) => IntCode(i)
    case Num(Float(r)) => IntCode(r.mantissa) + IntCode(r.exponent)
    case Str(s) => StrCode(s)
    case Arr(items) => ItemsCode(j, items)
    case Obj(fields) => FieldsCode(j, fields, Strings.InOrder(fields.Keys))
  }

  lemma TaggedCode(j: Json, a: string)
    ensures Code(j) + a == NatCode(Tag(j)) + (Payload(j) + a)
  {
  }

  lemma {:induction false} CodePrefix(j: Json, k: Json, a: string, b: string)
    requires Code(j) + a == Code(k) + b
    ensures j == k && a == b
    decreases j, 1, 0
  {
    TaggedCode(j, a);
    TaggedCode(k, b);
    NatPrefix(Tag(j), Tag(k), Payload(j) + a, Payload(k) + b);
    match j
    case Null =>
      assert "" + a == a && "" + b == b;
    case Bool(_) =>
      assert "" + a == a && "" + b == b;
    case Num(Int(i)) => IntPrefix(i, k.n.i, a, b);
    case Num(Float(r)) => FloatPrefix(r, k.n.r, a, b);
    case Str(s) => StrPrefix(s, k.s, a, b);
    case Arr(items) => ItemsPrefix(j, items, k, k.items, a, b);
    case Obj(fields) =>
      FieldsPrefix(j, fields, Strings.InOrder(fields.Keys), k, k.fields, Strings.InOrder(k.fields.Keys), a, b);
      assert fields.Keys == k.fields.Keys by {
        assert forall x :: x in fields.Keys <==> x in Strings.InOrder(fields.Keys);
        assert forall x :: x in k.fields.Keys <==> x in Strings.InOrder(k.fields.Keys);
      }
      assert fields == k.fields;
  }

  lemma Regroup(x: string, y: string, z: string)
    ensures (x + y) + z == x + (y + z)
  {
  }

  lemma FloatPrefix(r: Float64, s: Float64, a: string, b: string)
    requires (IntCode(r.mantissa) + IntCode(r.exponent)) + a == (IntCode(s.mantissa) + IntCode(s.exponent)) + b
    ensures r == s && a == b
  {
    Regroup(IntCode(r.mantissa), IntCode(r.exponent), a);
    Regroup(IntCode(s.mantissa), IntCode(s.exponent), b);
    IntPrefix(r.mantissa, s.mantissa, IntCode(r.exponent) + a, IntCode(s.exponent) + b);
    IntPrefix(r.exponent, s.exponent, a, b);
  }

  lemma ItemsByFirst(whole: Json, items: seq<Json>, a: string)
    requires items != [] && forall x | x in items :: x < whole
    ensures items[0] in items && forall x | x in items[1..] :: x in items
    ensures (ItemsCode(whole, items) + a)[1..] == Code(items[0]) + (ItemsCode(whole, items[1..]) + a)
  {
    assert forall x | x in items[1..] :: x in items;
    WithoutFirst(Code(items[0]), "", ItemsCode(whole, items[1..]), a);
    assert "1" + Code(items[0]) + "" == "1" + Code(items[0]);
    assert "" + (ItemsCode(whole, items[1..]) + a) == ItemsCode(whole, items[1..]) + a;
  }

  lemma {:induction false} ItemsPrefix(whole: Json, items: seq<Json>,
                                       whole': Json, items': seq<Json>, a: string, b: string)
    requires forall x | x in items :: x < whole
    requires forall x | x in items' :: x < whole'
    requires ItemsCode(whole, items) + a == ItemsCode(whole', items') + b
    ensures items == items' && a == b
    decreases whole, 0, |items|
  {
    var p, q := ItemsCode(whole, items) + a, ItemsCode(whole', items') + b;
    assert p[0] == ItemsCode(whole, items)[0] && q[0] == ItemsCode(whole', items')[0];
    if items == [] {
      assert p[1..] == a && q[1..] == b;
    } else {
      ItemsByFirst(whole, items, a);
      ItemsByFirst(whole', items', b);
      var rest, rest' := ItemsCode(whole, items[1..]) + a, ItemsCode(whole', items'[1..]) + b;
      CodePrefix(items[0], items'[0], rest, rest');
      ItemsPrefix(whole, items[1..], whole', items'[1..], a, b);
      assert items == [items[0]] + items[1..] && items' == [items'[0]] + items'[1..];
    }
  }

  lemma FieldsByFirst(whole: Json, f: Fields, keys: seq<string>, a: string)
    requires forall k | k in f :: f[k] < whole
    requires keys != [] && forall k | k in keys :: k in f
    ensures (FieldsCode(whole, f, keys) + a)[1..]
         == StrCode(keys[0]) + (Code(f[keys[0]]) + (FieldsCode(whole, f, keys[1..]) + a))
  {
    WithoutFirst(StrCode(keys[0]), Code(f[keys[0]]), FieldsCode(whole, f, keys[1..]), a);
  }

  lemma WithoutFirst(x: string, y: string, z: string, a: string)
    ensures ("1" + x + y + z + a)[1..] == x + (y + (z + a))
  {
  }

  lemma {:induction false} FieldsPrefix(whole: Json, f: Fields, keys: seq<string>,
                                        whole': Json, f': Fields, keys': seq<string>, a: string, b: string)
    requires forall k | k in f :: f[k] < whole
    requires forall k | k in f' :: f'[k] < whole'
    requires forall k | k in keys :: k in f
    requires forall k | k in keys' :: k in f'
    requires FieldsCode(whole, f, keys) + a == FieldsCode(whole', f', keys') + b
    ensures keys == keys' && a == b && forall k | k in keys :: f[k] == f'[k]
    decreases whole, 0, |keys|
  {
    var p, q := FieldsCode(whole, f, keys) + a, FieldsCode(whole', f', keys') + b;
    assert p[0] == FieldsCode(whole, f, keys)[0] && q[0] == FieldsCode(whole', f', keys')[0];
    if keys == [] {
      assert p[1..] == a && q[1..] == b;
    } else {
      var rest, rest' := FieldsCode(whole, f, keys[1..]) + a, FieldsCode(whole', f', keys'[1..]) + b;
      var v, v' := f[keys[0]], f'[keys'[0]];
      FieldsByFirst(whole, f, keys, a);
      FieldsByFirst(whole', f', keys', b);
      StrPrefix(keys[0], keys'[0], Code(v) + rest, Code(v') + rest');
      CodePrefix(v, v', rest, rest');
      FieldsPrefix(whole, f, keys[1..], whole', f', keys'[1..], a, b);
      assert keys == [keys[0]] + keys[1..] && keys' == [keys'[0]] + keys'[1..];
    }
  }

  // ----- the codec -----

  predicate Digits(s: string) { forall c | c in s :: c == '0' || c == '1' }

  lemma {:induction false} NatDigits(n: nat)
    ensures Digits(NatCode(n))
  {
    if n > 0 { NatDigits(n - 1); }
  }

  lemma {:induction false} StrDigits(s: string)
    ensures Digits(StrCode(s))
  {
    if s != "" {
      NatDigits(s[0] as int);
      StrDigits(s[1..]);
    }
  }

  lemma IntDigits(i: int)
    ensures Digits(IntCode(i))
  {
    NatDigits(if i >= 0 then 2 * i else -2 * i - 1);
  }

  lemma DigitsOfConcat(a: string, b: string)
    requires Digits(a) && Digits(b)
    ensures Digits(a + b)
  {
  }

  lemma {:induction false} CodeDigits(j: Json)
    ensures Digits(Code(j))
    decreases j, 2, 0
  {
    NatDigits(Tag(j));
    PayloadDigits(j);
    DigitsOfConcat(NatCode(Tag(j)), Payload(j));
    TaggedCode(j, "");
    assert Code(j) == Code(j) + "" && Payload(j) == Payload(j) + "";
  }

  lemma {:induction false} PayloadDigits(j: Json)
    ensures Digits(Payload(j))
    decreases j, 1, 0
  {
    match j
    case Num(Int(i)) => IntDigits(i);
    case Num(Float(r)) =>
      IntDigits(r.mantissa);
      IntDigits(r.exponent);
      DigitsOfConcat(IntCode(r.mantissa), IntCode(r.exponent));
    case Str(s) => StrDigits(s);
    case Arr(items) => ItemsDigits(j, items);
    case Obj(fields) => FieldsDigits(j, fields, Strings.InOrder(fields.Keys));
    case _ =>
  }

  lemma {:induction false} ItemsDigits(whole: Json, items: seq<Json>)
    requires forall x | x in items :: x < whole
    ensures Digits(ItemsCode(whole, items))
    decreases whole, 0, |items|
  {
    if items != [] {
      assert items[0] in items && forall x | x in items[1..] :: x in items;
      CodeDigits(items[0]);
      ItemsDigits(whole, items[1..]);
    }
  }

  lemma {:induction false} FieldsDigits(whole: Json, fields: Fields, keys: seq<string>)
    requires forall k | k in fields :: fields[k] < whole
    requires forall k | k in keys :: k in fields
    ensures Digits(FieldsCode(whole, fields, keys))
    decreases whole, 0, |keys|
  {
    if keys != [] {
      StrDigits(keys[0]);
      CodeDigits(fields[keys[0]]);
      FieldsDigits(whole, fields, keys[1..]);
    }
  }

  /** The text of a value is its code, on a line of its own or without the line feed. */
  ghost predicate IsTextOf(j: Json, s: string) { s == Code(j) || s == Code(j) + "\n" }

  lemma CodeOfText(j: Json, s: string)
    requires IsTextOf(j, s)
    ensures s != "" && Code(j) == if s[|s| - 1] == '\n' then s[..|s| - 1] else s
  {
    CodeDigits(j);
    TaggedCode(j, "");
    assert Code(j) == Code(j) + "";
    assert Code(j)[|Code(j)| - 1] in Code(j);
  }

  lemma TextIsUnique(j: Json, k: Json, s: string)
    requires IsTextOf(j, s) && IsTextOf(k, s)
    ensures j == k
  {
    CodeOfText(j, s);
    CodeOfText(k, s);
    CodePrefix(j, k, "", "");
  }

  lemma LineIsBlock(line: string)
    requires Digits(line) && line != ""
    ensures Frontmatter.IsBlock(line + "\n")
  {
    var text := line + "\n";
    assert forall i | 0 <= i < |line| :: line[i] in line && text[i] == line[i];
    Frontmatter.LineEndIs(text, |line|);
    Frontmatter.LinesByFirst(text);
    assert text[..|line|] == line && text[|line| + 1..] == "";
    assert Frontmatter.Lines(text) == [line];
    assert line[0] in line;
  }

  /** The value of a text; `chomps` says what happens to a text without its line feed. */
  ghost function Read(chomps: bool, s: string): Option<Yaml> {
    if exists j :: IsTextOf(j, s) then
      var j :| IsTextOf(j, s);
      Some(ToYaml(if chomps && s == Code(j) then Chomped(j) else j))
    else None
  }

  lemma ReadsText(chomps: bool, j: Json, s: string)
    requires IsTextOf(j, s)
    ensures Read(chomps, s) == Some(ToYaml(if chomps && s == Code(j) then Chomped(j) else j))
  {
    forall k | IsTextOf(k, s) ensures k == j {
      TextIsUnique(k, j, s);
    }
  }

  ghost function LineCodec(chomps: bool): YamlCodec { YamlCodec(j => Code(j) + "\n", s => Read(chomps, s)) }

  lemma LineCodecAt(chomps: bool, j: Json)
    ensures var yaml := LineCodec(chomps);
            && yaml.LawfulAt(j) && yaml.print_(j) == Code(j) + "\n"
            && yaml.parse(Code(j)) == Some(ToYaml(if chomps then Chomped(j) else j))
  {
    var text := Code(j) + "\n";
    assert text[..|text| - 1] == Code(j) && text != Code(j);
    CodeDigits(j);
    CodeOfText(j, text);
    LineIsBlock(Code(j));
    ReadsText(chomps, j, text);
    ReadsText(chomps, j, Code(j));
  }

  lemma LineCodecIsLawful(chomps: bool)
    ensures LineCodec(chomps).Lawful()
  {
    forall j: Json | j.Obj? ensures LineCodec(chomps).LawfulAt(j) {
      LineCodecAt(chomps, j);
    }
  }

  /** A codec that obeys the laws exists, so what is proved under them is not proved of nothing. */
  lemma LawfulCodecExists()
    ensures exists yaml: YamlCodec :: yaml.Lawful()
  {
    LineCodecIsLawful(true);
  }

  // ----- what the laws leave open -----

  ghost predicate RoundTrips(yaml: YamlCodec, a: Entity)
    requires a.Agent?
  {
    ParseAgent(yaml, a.name, AgentText(yaml, a)) == Some(a.(systemPrompt := Frontmatter.Trim(a.systemPrompt)))
  }

  /** A codec that drops the last line feed of a document drops it from the last name of an agent. */
  lemma ChompingCodecChomps(a: Entity)
    requires a.Agent? && TailEndsInLineFeed(a)
    ensures !RoundTrips(LineCodec(true), a)
  {
    var yaml, front := LineCodec(true), Obj(AgentFront(a));
    var text := Code(front) + "\n";
    LineCodecAt(true, front);
    assert text[..|text| - 1] == Code(front);
    Frontmatter.SplitOfPrinted(text, a.systemPrompt);
    ChompedFront(a);
    AgentFrontRoundTrip(ChompedAgent(a), Frontmatter.ReadBack(a.systemPrompt));
    ChompedAgentIsSame(a);
  }

  /**
   An agent comes back whole under every lawful codec if and only if its trimmed prompt holds no
   CR LF and the name that is printed last does not end in a line feed.
   */
  lemma RoundTripsAlwaysIff(a: Entity)
    requires a.Agent?
    ensures (forall yaml: YamlCodec | yaml.Lawful() :: RoundTrips(yaml, a))
       <==> !TailEndsInLineFeed(a) && !Frontmatter.HasCrLf(Frontmatter.Trim(a.systemPrompt))
  {
    var some := LineCodec(true);
    LineCodecIsLawful(true);
    AgentRoundTrip(some, a);
    if TailEndsInLineFeed(a) {
      ChompingCodecChomps(a);
    } else {
      forall yaml: YamlCodec | yaml.Lawful()
        ensures RoundTrips(yaml, a) <==> !Frontmatter.HasCrLf(Frontmatter.Trim(a.systemPrompt))
      {
        AgentRoundTrip(yaml, a);
      }
      assert RoundTrips(some, a) <==> !Frontmatter.HasCrLf(Frontmatter.Trim(a.systemPrompt));
    }
  }
}
