/** Resolving what a user types into a conversation: a printed index or a piece of its UUID. */
module ConversationRefs {
  import opened Bytes
  import Decimal
  import Strings

  predicate IsHex(c: char) { '0' <= c <= '9' || 'a' <= c <= 'f' }

  /** A UUID by its 32 hexadecimal digits; their order is the order of the identifiers. */
  type Uuid = s: string | |s| == 32 && forall i | 0 <= i < |s| :: IsHex(s[i])
    witness seq(32, _ => '0')

  /** The hyphenated text, 8-4-4-4-12. */
  function Text(u: Uuid): (t: string)
    ensures |t| == 36 && t[8] == '-'
    ensures forall i | 0 <= i < 36 :: t[i] == '-' || IsHex(t[i])
  {
    u[..8] + "-" + u[8..12] + "-" + u[12..16] + "-" + u[16..20] + "-" + u[20..]
  }

  lemma TextParts(u: Uuid)
    ensures var t := Text(u); u == t[..8] + t[9..13] + t[14..18] + t[19..23] + t[24..]
  {
    var t := Text(u);
    assert t[..8] == u[..8] && t[9..13] == u[8..12] && t[14..18] == u[12..16];
    assert t[19..23] == u[16..20] && t[24..] == u[20..];
  }

  lemma TextIsInjective(u: Uuid, v: Uuid)
    requires Text(u) == Text(v)
    ensures u == v
  {
    var t := Text(u);
    TextParts(u);
    TextParts(v);
  }

  function LowerChar(c: char): char {
    if 'A' <= c <= 'Z' then c + 32 as char else c
  }

  function Lower(s: string): (r: string)
    ensures |r| == |s| && forall i | 0 <= i < |s| :: r[i] == LowerChar(s[i])
  {
    seq(|s|, i requires 0 <= i < |s| => LowerChar(s[i]))
  }

  datatype Resolution =
    | Found(id: Uuid)
    | NoSuchIndex(index: nat, have: nat)
    | NoMatch
    | Ambiguous(count: nat)

  const USIZE_MAX := 0xFFFF_FFFF_FFFF_FFFF

  /** A clean decimal that `parse::<usize>` accepts; everything else is a prefix. */
  predicate IsIndex(reference: string) {
    Decimal.Clean(reference) && Decimal.Parse(reference) <= USIZE_MAX
  }

  function Matching(convs: seq<Uuid>, prefix: string): (r: seq<Uuid>)
    ensures forall id :: id in r <==> id in convs && prefix <= Text(id)
  {
    if convs == [] then []
    else if prefix <= Text(convs[0]) then [convs[0]] + Matching(convs[1..], prefix)
    else Matching(convs[1..], prefix)
  }

  function Resolve(convs: seq<Uuid>, reference: string): Resolution {
    if IsIndex(reference) then
      var index := Decimal.Parse(reference);
      if 1 <= index <= |convs| then Found(convs[index - 1]) else NoSuchIndex(index, |convs|)
    else
      var matches := Matching(convs, Lower(reference));
      if |matches| == 0 then NoMatch
      else if |matches| == 1 then Found(matches[0])
      else Ambiguous(|matches|)
  }

  ghost predicate Distinct(convs: seq<Uuid>) {
    forall i, j | 0 <= i < j < |convs| :: convs[i] != convs[j]
  }

  /** The index that the list prints in front of a conversation resolves to it. */
  lemma PrintedIndexResolves(convs: seq<Uuid>, i: nat)
    requires i < |convs| <= USIZE_MAX
    ensures Resolve(convs, Decimal.Print(i + 1)) == Found(convs[i])
  {
    Decimal.ParseUndoesPrint(i + 1);
  }

  /** Conversely an index that resolves is the printed index of the conversation found. */
  lemma ResolvedIndexWasPrinted(convs: seq<Uuid>, reference: string)
    requires IsIndex(reference) && Resolve(convs, reference).Found?
    ensures exists i | 0 <= i < |convs| ::
              reference == Decimal.Print(i + 1) && Resolve(convs, reference).id == convs[i]
  {
    Decimal.PrintUndoesParse(reference);
    var i := Decimal.Parse(reference) - 1;
    assert reference == Decimal.Print(i + 1);
  }

  /** `convs[i]` matches and no other conversation does. */
  ghost predicate MatchesAlone(convs: seq<Uuid>, prefix: string, i: nat)
    requires i < |convs|
  {
    prefix <= Text(convs[i]) && forall j | 0 <= j < |convs| && j != i :: !(prefix <= Text(convs[j]))
  }

  /** With distinct identifiers, the matches are `convs[i]` only exactly when it matches alone. */
  lemma {:induction false} MatchingIsUnique(convs: seq<Uuid>, prefix: string, i: nat)
    requires Distinct(convs) && i < |convs|
    ensures Matching(convs, prefix) == [convs[i]] <==> MatchesAlone(convs, prefix, i)
  {
    var rest := convs[1..];
    assert convs == [convs[0]] + rest;
    if i == 0 {
      assert convs[0] !in rest;
      assert convs[0] !in Matching(rest, prefix);
      NoneMatching(rest, prefix);
      assert MatchesAlone(convs, prefix, 0) <==> prefix <= Text(convs[0]) && Matching(rest, prefix) == [];
    } else {
      MatchingIsUnique(rest, prefix, i - 1);
      MatchesAloneInTail(convs, prefix, i);
      assert convs[0] != convs[i];
    }
  }

  lemma MatchesAloneInTail(convs: seq<Uuid>, prefix: string, i: nat)
    requires 0 < i < |convs|
    ensures MatchesAlone(convs, prefix, i)
       <==> !(prefix <= Text(convs[0])) && MatchesAlone(convs[1..], prefix, i - 1)
  {
    var rest := convs[1..];
    assert forall j | 0 < j < |convs| :: rest[j - 1] == convs[j];
  }

  lemma NoneMatching(convs: seq<Uuid>, prefix: string)
    ensures Matching(convs, prefix) == [] <==> forall j | 0 <= j < |convs| :: !(prefix <= Text(convs[j]))
  {
    var matches := Matching(convs, prefix);
    assert matches != [] ==> matches[0] in matches;
  }

  /** In prefix mode the answer is `convs[i]` exactly when that conversation alone matches. */
  lemma PrefixResolvesIff(convs: seq<Uuid>, reference: string, i: nat)
    requires Distinct(convs) && i < |convs| && !IsIndex(reference)
    ensures Resolve(convs, reference) == Found(convs[i]) <==> MatchesAlone(convs, Lower(reference), i)
  {
    var matches := Matching(convs, Lower(reference));
    MatchingIsUnique(convs, Lower(reference), i);
    assert |matches| == 1 ==> matches == [matches[0]];
  }

  /** The full text of a UUID, in any mixture of cases, resolves to its conversation. */
  lemma FullTextResolves(convs: seq<Uuid>, i: nat, reference: string)
    requires Distinct(convs) && i < |convs| && Lower(reference) == Text(convs[i])
    ensures Resolve(convs, reference) == Found(convs[i])
  {
    assert Lower(reference)[8] == '-' && !Decimal.IsDigit(reference[8]);
    forall j | 0 <= j < |convs| && j != i ensures !(Text(convs[i]) <= Text(convs[j])) {
      if Text(convs[i]) <= Text(convs[j]) {
        TextIsInjective(convs[i], convs[j]);
      }
    }
    PrefixResolvesIff(convs, reference, i);
  }

  /** A prefix of a UUID text that is all digits has at most eight of them. */
  lemma {:induction false} DigitsAreSmall(s: string)
    requires Decimal.AllDigits(s) && |s| <= 8
    ensures Decimal.Parse(s) < Power10(|s|) <= 100_000_000
  {
    if s != [] {
      DigitsAreSmall(s[..|s| - 1]);
    }
    Power10Bound(|s|);
  }

  function Power10(n: nat): nat { if n == 0 then 1 else 10 * Power10(n - 1) }

  lemma {:induction false} Power10Bound(n: nat)
    requires n <= 8
    ensures Power10(n) <= Power10(8) == 100_000_000
    decreases 8 - n
  {
    if n < 8 {
      Power10Bound(n + 1);
    } else {
      assert Power10(2) == 100 && Power10(4) == 100 * Power10(2) && Power10(6) == 100 * Power10(4);
    }
  }

  /** A non-empty prefix that is not an index stays one when it is extended along a UUID text. */
  lemma ExtensionIsPrefix(reference: string, extended: string, id: Uuid)
    requires reference != [] && reference <= extended
    requires !IsIndex(reference) && Lower(extended) <= Text(id)
    ensures !IsIndex(extended)
  {
    assert forall i | 0 <= i < |reference| :: reference[i] == extended[i];
    if |extended| > 8 {
      assert Lower(extended)[8] == Text(id)[8];
      assert !Decimal.IsDigit(extended[8]);
    } else if !Decimal.AllDigits(reference) {
      var i :| 0 <= i < |reference| && !Decimal.IsDigit(reference[i]);
      assert !Decimal.IsDigit(extended[i]);
    } else {
      DigitsAreSmall(reference);
      assert extended[0] == '0' && |extended| > 1;
    }
  }

  /** Typing more of the UUID that a prefix found keeps finding it. */
  lemma ExtendingKeepsTheAnswer(convs: seq<Uuid>, i: nat, reference: string, extended: string)
    requires Distinct(convs) && i < |convs|
    requires reference != [] && !IsIndex(reference) && Resolve(convs, reference) == Found(convs[i])
    requires reference <= extended && Lower(extended) <= Text(convs[i])
    ensures Resolve(convs, extended) == Found(convs[i])
  {
    ExtensionIsPrefix(reference, extended, convs[i]);
    PrefixResolvesIff(convs, reference, i);
    assert Lower(reference) <= Lower(extended);
    PrefixResolvesIff(convs, extended, i);
  }

  /** The empty reference finds a conversation only when there is no other. */
  lemma EmptyFindsTheOnlyOne(convs: seq<Uuid>, i: nat)
    requires Distinct(convs) && i < |convs| && Resolve(convs, "") == Found(convs[i])
    ensures |convs| == 1
  {
    PrefixResolvesIff(convs, "", i);
    assert Lower("") <= Text(convs[0]) && Lower("") <= Text(convs[|convs| - 1]);
  }

  lemma OnlyIndexOfOne(convs: seq<Uuid>, extended: string)
    requires |convs| == 1 && IsIndex(extended)
    ensures Resolve(convs, extended) == Found(convs[0]) <==> extended == "1"
  {
    Decimal.PrintUndoesParse(extended);
    Decimal.ParseUndoesPrint(1);
    assert Decimal.Print(1) == "1";
  }

  /**
   Extending a prefix that found a conversation along its identifier keeps the answer if and only
   if the prefix was not empty, or the extension is no index, or it is the index that is right.
   */
  lemma ExtendingKeepsIff(convs: seq<Uuid>, i: nat, reference: string, extended: string)
    requires Distinct(convs) && i < |convs|
    requires !IsIndex(reference) && Resolve(convs, reference) == Found(convs[i])
    requires reference <= extended && Lower(extended) <= Text(convs[i])
    ensures Resolve(convs, extended) == Found(convs[i]) <==> reference != "" || !IsIndex(extended) || extended == "1"
  {
    if reference != "" {
      ExtendingKeepsTheAnswer(convs, i, reference, extended);
    } else {
      EmptyFindsTheOnlyOne(convs, i);
      if IsIndex(extended) {
        OnlyIndexOfOne(convs, extended);
      } else {
        PrefixResolvesIff(convs, extended, i);
      }
    }
  }

  /** The empty reference is a prefix of everything, and one more character can make it an index. */
  lemma EmptyReferenceIsNotKept(id: Uuid)
    requires id[0] == '7'
    ensures Resolve([id], "") == Found(id)
    ensures "7" <= Text(id) && Resolve([id], "7") == NoSuchIndex(7, 1)
  {
    assert Matching([id], Lower("")) == [id];
    assert Decimal.Parse("7") == Decimal.Parse("") * 10 + 7;
  }

  // ----- every answer, said on the texts -----

  /** The same character, or the upper-case letter of it. */
  ghost predicate IsCaseOf(typed: char, c: char) {
    typed == c || ('A' <= typed <= 'Z' && 'a' <= c <= 'z' && c as int - 'a' as int == typed as int - 'A' as int)
  }

  /** The reference is a prefix of the text, whatever the cases of its letters. */
  ghost predicate IsPrefixOf(reference: string, t: string) {
    |reference| <= |t| && forall k | 0 <= k < |reference| :: IsCaseOf(reference[k], t[k])
  }

  lemma LoweredPrefixIff(reference: string, id: Uuid)
    ensures Lower(reference) <= Text(id) <==> IsPrefixOf(reference, Text(id))
  {
    var r, t := Lower(reference), Text(id);
    forall k | 0 <= k < |r| && k < |t| ensures r[k] == t[k] <==> IsCaseOf(reference[k], t[k]) {
      assert t[k] == '-' || IsHex(t[k]);
    }
    if r <= t {
      assert forall k | 0 <= k < |r| :: r[k] == t[k];
    }
    if IsPrefixOf(reference, t) {
      assert forall k | 0 <= k < |r| :: r[k] == t[k];
    }
  }

  lemma IsIndexIff(reference: string)
    ensures IsIndex(reference) <==> exists n: nat :: n <= 0xFFFF_FFFF_FFFF_FFFF && reference == Decimal.Print(n)
  {
    if IsIndex(reference) {
      Decimal.PrintUndoesParse(reference);
    }
    if n: nat :| n <= 0xFFFF_FFFF_FFFF_FFFF && reference == Decimal.Print(n) {
      Decimal.ParseUndoesPrint(n);
    }
  }

  /** How many of the conversations the reference is a prefix of. */
  ghost function Count(convs: seq<Uuid>, reference: string): nat {
    if convs == [] then 0
    else Count(convs[1..], reference) + if IsPrefixOf(reference, Text(convs[0])) then 1 else 0
  }

  lemma {:induction false} MatchingCounts(convs: seq<Uuid>, reference: string)
    ensures |Matching(convs, Lower(reference))| == Count(convs, reference)
  {
    if convs != [] {
      MatchingCounts(convs[1..], reference);
      LoweredPrefixIff(reference, convs[0]);
    }
  }

  /** A printed number is an index, in range or not; anything else is a prefix that matches none, one or several. */
  lemma ResolvesIff(convs: seq<Uuid>, reference: string)
    ensures forall n: nat | n <= 0xFFFF_FFFF_FFFF_FFFF && reference == Decimal.Print(n) ::
              Resolve(convs, reference) == if 1 <= n <= |convs| then Found(convs[n - 1]) else NoSuchIndex(n, |convs|)
    ensures !IsIndex(reference) ==>
              var n := Count(convs, reference);
              && (Resolve(convs, reference) == NoMatch <==> n == 0)
              && (forall m :: Resolve(convs, reference) == Ambiguous(m) <==> n >= 2 && m == n)
              && (Resolve(convs, reference).Found? <==> n == 1)
              && (n == 1 ==> var id := Resolve(convs, reference).id; id in convs && IsPrefixOf(reference, Text(id)))
  {
    forall n: nat | n <= 0xFFFF_FFFF_FFFF_FFFF && reference == Decimal.Print(n)
      ensures IsIndex(reference) && Decimal.Parse(reference) == n
    {
      Decimal.ParseUndoesPrint(n);
    }
    if !IsIndex(reference) {
      var matches := Matching(convs, Lower(reference));
      MatchingCounts(convs, reference);
      if |matches| == 1 {
        assert matches[0] in matches;
        LoweredPrefixIff(reference, matches[0]);
      }
    }
  }

  /** So the full text of an identifier, each letter in either case, resolves to its conversation. */
  lemma AnyCaseResolves(convs: seq<Uuid>, i: nat, reference: string)
    requires Distinct(convs) && i < |convs| && |reference| == 36 && IsPrefixOf(reference, Text(convs[i]))
    ensures Resolve(convs, reference) == Found(convs[i])
  {
    LoweredPrefixIff(reference, convs[i]);
    assert Lower(reference) == Text(convs[i]);
    FullTextResolves(convs, i, reference);
  }

  // ----- the listing -----

  /** The conversations of a directory: files that do not parse are skipped, the rest is sorted. */
  function Loaded(files: seq<Option<Uuid>>): seq<Uuid> {
    if files == [] then []
    else if files[|files| - 1].None? then Loaded(files[..|files| - 1])
    else Loaded(files[..|files| - 1]) + [files[|files| - 1].value]
  }

  method ListConversations(files: seq<Option<Uuid>>) returns (convs: seq<string>)
    ensures convs == Strings.Sort(Loaded(files))
    ensures Strings.Sorted(convs) && multiset(convs) == multiset(Loaded(files))
  {
    var found: seq<string> := [];
    for i := 0 to |files|
      invariant found == Loaded(files[..i])
    {
      assert files[..i + 1][..i] == files[..i];
      if files[i].Some? {
        found := found + [files[i].value];
      }
    }
    assert files[..|files|] == files;
    convs := Strings.Sort(found);
    Strings.SortSorts(found);
  }

  /** Whatever order the directory is read in, the list and so the printed indices are the same. */
  lemma ListingIgnoresDirectoryOrder(files: seq<Option<Uuid>>, again: seq<Option<Uuid>>)
    requires multiset(files) == multiset(again)
    ensures Strings.Sort(Loaded(files)) == Strings.Sort(Loaded(again))
  {
    forall id: Uuid ensures multiset(Loaded(files))[id] == multiset(Loaded(again))[id] {
      LoadedCounts(files, id);
      LoadedCounts(again, id);
    }
    var a, b := Strings.Sort(Loaded(files)), Strings.Sort(Loaded(again));
    forall x: string ensures multiset(a)[x] == multiset(b)[x] {
      if x in a || x in b {
        assert x in multiset(Loaded(files)) || x in multiset(Loaded(again));
        var u: Uuid := x;
      }
    }
    Strings.SortSorts(Loaded(files));
    Strings.SortSorts(Loaded(again));
    Strings.SortedIsUnique(a, b);
  }

  lemma {:induction false} LoadedCounts(files: seq<Option<Uuid>>, id: Uuid)
    ensures multiset(Loaded(files))[id] == multiset(files)[Some(id)]
  {
    if files != [] {
      var head, last := files[..|files| - 1], files[|files| - 1];
      LoadedCounts(head, id);
      assert files == head + [last];
      assert multiset(files) == multiset(head) + multiset{last};
      assert last.Some? ==> multiset(Loaded(files)) == multiset(Loaded(head)) + multiset{last.value};
    }
  }
}
