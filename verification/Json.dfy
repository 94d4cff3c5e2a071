/** JSON and YAML values, patches, and the YAML library as a printer and a parser with assumed laws. */
module Json {
  import opened Bytes
  import Frontmatter
  import Strings

  datatype Dyadic = Dyadic(mantissa: int, exponent: int)

  /** A finite float: a mantissa times a power of two, in lowest terms. */
  type Float64 = d: Dyadic | d.mantissa % 2 != 0 || d == Dyadic(0, 0) witness Dyadic(0, 0)

  /** The float of an integer, which is taken to fit the mantissa. */
  function FloatOf(i: int): (r: Float64)
    ensures i != 0 ==> r.mantissa % 2 != 0
    decreases if i < 0 then -i else i
  {
    if i == 0 then Dyadic(0, 0)
    else if i % 2 != 0 then Dyadic(i, 0)
    else var half := FloatOf(i / 2); Dyadic(half.mantissa, half.exponent + 1)
  }

  /** Integers and floats are told apart; a float is finite, as in `serde_json`. */
  datatype Number = Int(i: int) | Float(r: Float64)

  /** YAML has the floats `.inf`, `-.inf` and `.nan` as well; they are one here. */
  datatype YamlNumber = Plain(n: Number) | NonFinite

  datatype Value<+N> =
    | Null
    | Bool(b: bool)
    | Num(n: N)
    | Str(s: string)
    | Arr(items: seq<Value<N>>)
    | Obj(fields: map<string, Value<N>>)

  type Json = Value<Number>
  type Yaml = Value<YamlNumber>
  type Fields = map<string, Json>
  type YamlFields = map<string, Yaml>

  // ----- from one to the other -----

  /** `serde_json::to_value` on a YAML value: JSON has no other word for a float that is not finite. */
  function ToJson(y: Yaml): Json {
    match y
    case Null => Null
    case Bool(b) => Bool(b)
    case Num(Plain(n)) => Num(n)
    case Num(NonFinite) => Null
    case Str(s) => Str(s)
    case Arr(items) => Arr(seq(|items|, i requires 0 <= i < |items| => ToJson(items[i])))
    case Obj(fields) => Obj(map k | k in fields :: ToJson(fields[k]))
  }

  /** `yaml_serde::to_value` on a JSON value. */
  function ToYaml(j: Json): Yaml {
    match j
    case Null => Null
    case Bool(b) => Bool(b)
    case Num(n) => Num(Plain(n))
    case Str(s) => Str(s)
    case Arr(items) => Arr(seq(|items|, i requires 0 <= i < |items| => ToYaml(items[i])))
    case Obj(fields) => Obj(map k | k in fields :: ToYaml(fields[k]))
  }

  function JsonFields(f: YamlFields): Fields { ToJson(Obj(f)).fields }

  function YamlOf(f: Fields): YamlFields { ToYaml(Obj(f)).fields }

  /** Whether a float that is not finite stands anywhere in the value. */
  predicate HoldsNonFinite(y: Yaml) {
    match y
    case Num(n) => n == NonFinite
    case Arr(items) => exists i | 0 <= i < |items| :: HoldsNonFinite(items[i])
    case Obj(fields) => exists k | k in fields :: HoldsNonFinite(fields[k])
    case _ => false
  }

  lemma {:induction false} JsonComesBack(j: Json)
    ensures ToJson(ToYaml(j)) == j
  {
    match j
    case Arr(items) =>
      forall i | 0 <= i < |items| ensures ToJson(ToYaml(items[i])) == items[i] {
        JsonComesBack(items[i]);
      }
    case Obj(fields) =>
      forall k | k in fields ensures ToJson(ToYaml(fields[k])) == fields[k] {
        JsonComesBack(fields[k]);
      }
    case _ =>
  }

  /** A stored value outlives the way through JSON exactly when all its floats are finite. */
  lemma {:induction false} YamlComesBackIff(y: Yaml)
    ensures ToYaml(ToJson(y)) == y <==> !HoldsNonFinite(y)
  {
    match y
    case Arr(items) =>
      var back := ToYaml(ToJson(y));
      forall i | 0 <= i < |items| ensures back.items[i] == items[i] <==> !HoldsNonFinite(items[i]) {
        YamlComesBackIff(items[i]);
      }
    case Obj(fields) =>
      var back := ToYaml(ToJson(y));
      forall k | k in fields ensures back.fields[k] == fields[k] <==> !HoldsNonFinite(fields[k]) {
        YamlComesBackIff(fields[k]);
      }
    case _ =>
  }

  // ----- the YAML library -----

  /** A string without its last line feed. */
  function Chomp(s: string): string {
    if EndsInLineFeed(s) then s[..|s| - 1] else s
  }

  predicate EndsInLineFeed(s: string) { s != "" && s[|s| - 1] == '\n' }

  function LastKey(f: Fields): (k: string)
    requires f.Keys != {}
    ensures k in f
  {
    var keys := Strings.InOrder(f.Keys);
    var some :| some in f.Keys;
    assert some in keys;
    assert keys[|keys| - 1] in keys;
    keys[|keys| - 1]
  }

  /** The value whose last string, in the order of printing, has lost a line feed at its end. */
  function Chomped(j: Json): Json {
    match j
    case Str(s) => Str(Chomp(s))
    case Arr(items) =>
      if items == [] then j else Arr(items[..|items| - 1] + [Chomped(items[|items| - 1])])
    case Obj(fields) =>
      if fields.Keys == {} then j else Obj(fields[LastKey(fields) := Chomped(fields[LastKey(fields)])])
    case _ => j
  }

  /**
   The YAML library. `Lawful` is what this project assumes of it: an object prints as a block of
   lines without CR or fence, and parsing undoes printing. Without its final line feed the text
   still parses, but a string that ends the document may then have lost a line feed.
   */
  datatype YamlCodec = YamlCodec(print_: Json -> string, parse: string -> Option<Yaml>) {
    ghost predicate Lawful() {
      forall j: Json | j.Obj? :: LawfulAt(j)
    }

    ghost predicate LawfulAt(j: Json) {
      var text := print_(j);
      && Frontmatter.IsBlock(text)
      && parse(text) == Some(ToYaml(j))
      && (parse(text[..|text| - 1]) == Some(ToYaml(j)) || parse(text[..|text| - 1]) == Some(ToYaml(Chomped(j))))
    }
  }

  /** An array of strings. */
  function StrArray(names: seq<string>): (j: Json) {
    Arr(seq(|names|, i requires 0 <= i < |names| => Str(names[i])))
  }

  /** `patch_names`: the strings of an array, when it holds nothing else. */
  function Names<N>(items: seq<Value<N>>): (r: Option<seq<string>>)
    ensures r.Some? <==> forall i | 0 <= i < |items| :: items[i].Str?
    ensures r.Some? ==> |r.value| == |items| && forall i | 0 <= i < |items| :: items[i] == Str(r.value[i])
  {
    if items == [] then Some([])
    else if !items[0].Str? then None
    else
      var rest := Names(items[1..]);
      if rest.None? then None else Some([items[0].s] + rest.value)
  }

  /** `patch_array_names`. */
  function NamesOf<N>(j: Value<N>): (r: Option<seq<string>>) {
    if j.Arr? then Names(j.items) else None
  }

  lemma NamesOfStrArray(names: seq<string>)
    ensures NamesOf(StrArray(names)) == Some(names)
    ensures NamesOf(ToYaml(StrArray(names))) == Some(names)
  {
    var r := NamesOf(StrArray(names)).value;
    assert forall i | 0 <= i < |names| :: StrArray(names).items[i].s == r[i];
    assert r == names;
    var y := ToYaml(StrArray(names));
    forall i | 0 <= i < |names| ensures y.items[i] == Str(names[i]) {
      assert y.items[i] == ToYaml(StrArray(names).items[i]);
    }
    var t := NamesOf(y).value;
    assert forall i | 0 <= i < |names| :: y.items[i].s == t[i];
    assert t == names;
  }

  // ----- patches -----

  /** The patch of an update: the members of a JSON object in iteration order, or something else. */
  datatype Patch = NotAnObject | Members(entries: seq<(string, Json)>)

  /** A JSON object holds each key once. */
  ghost predicate DistinctKeys(entries: seq<(string, Json)>) {
    forall i, j | 0 <= i < j < |entries| :: entries[i].0 != entries[j].0
  }

  ghost predicate WellFormed(patch: Patch) {
    patch.Members? ==> DistinctKeys(patch.entries)
  }

  /** The members as a map, whatever their order. */
  function ToMap(entries: seq<(string, Json)>): (m: Fields)
    ensures forall k :: k in m <==> exists i | 0 <= i < |entries| :: entries[i].0 == k
  {
    if entries == [] then map[]
    else
      var last := entries[|entries| - 1];
      ToMap(entries[..|entries| - 1])[last.0 := last.1]
  }

  lemma {:induction false} ToMapAt(entries: seq<(string, Json)>, i: nat)
    requires DistinctKeys(entries) && i < |entries|
    ensures entries[i].0 in ToMap(entries) && ToMap(entries)[entries[i].0] == entries[i].1
  {
    if i < |entries| - 1 {
      ToMapAt(entries[..|entries| - 1], i);
    }
  }

  /** Objects with the same members give the same map, in whatever order they list them. */
  lemma ToMapIgnoresOrder(p: seq<(string, Json)>, q: seq<(string, Json)>)
    requires DistinctKeys(p) && DistinctKeys(q)
    requires forall x :: x in p <==> x in q
    ensures ToMap(p) == ToMap(q)
  {
    SameMembers(p, q);
    SameMembers(q, p);
  }

  lemma SameMembers(p: seq<(string, Json)>, q: seq<(string, Json)>)
    requires DistinctKeys(p) && DistinctKeys(q)
    requires forall x :: x in p ==> x in q
    ensures forall k :: k in ToMap(p) ==> k in ToMap(q) && ToMap(p)[k] == ToMap(q)[k]
  {
    forall k | k in ToMap(p)
      ensures k in ToMap(q) && ToMap(p)[k] == ToMap(q)[k]
    {
      var i :| 0 <= i < |p| && p[i].0 == k;
      assert p[i] in q;
      var j :| 0 <= j < |q| && q[j] == p[i];
      ToMapAt(p, i);
      ToMapAt(q, j);
    }
  }
}
