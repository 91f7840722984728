/**
  The structured content of a turn and its canonical form, which identifies the request:
  merged text, trimmed references, and resources sorted and without duplicates.
 */
module ContentParts {
  import opened Wrappers
  import opened Text
  import opened Utf8Range
  import Chat
  import Seqs

  const MAX_PARTS := 64
  const MAX_DERIVED := 0x1_0000
  const MAX_RESOURCES := 8

  datatype Resource = Resource(provider: string, apiVersion: string, kind: string, resource: string, name: string)

  datatype Annotation = Annotation(id: string, body: string)

  /**
    What is not modelled of a content part: reference and annotation grammars, the key of a
    resource, receipt normalisation, and the wording each part contributes to the prompt.
   */
  datatype Format = Format(
    refValid: Resource -> bool,
    key: Resource -> string,
    skillValid: string -> bool,
    annotation: Annotation -> Option<Annotation>,
    receipt: Chat.Receipt -> Option<Chat.Receipt>,
    skillText: string -> Bytes,
    resourceText: Resource -> Bytes,
    annotationText: Annotation -> Bytes,
    receiptText: Chat.Receipt -> Bytes,
    maxAttachments: nat,
    maxAttachmentBytes: int)

  /** Normal forms stay as they are. */
  ghost predicate Sound(f: Format)
  {
    && (forall a: Annotation :: f.annotation(a).Some? ==> f.annotation(f.annotation(a).value) == f.annotation(a))
    && (forall r: Chat.Receipt :: f.receipt(r).Some? ==> f.receipt(f.receipt(r).value) == f.receipt(r))
  }

  datatype PartsError =
    | TooManyParts | BadResource | TooManyResources | StrayFields | InvalidText | MissingSkill | InvalidSkill
    | UnselectedSkill | MissingIndex | IndexOutOfRange | MissingAnnotation | InvalidAnnotation | DuplicateAnnotation
    | MissingAttachment | InvalidAttachment | DuplicateAttachment | TooManyAttachments | AttachmentsTooLarge
    | UnknownType | TooManyNormalized | TooLong | NoContent | SkillNotRepresented | ResourceNotRepresented | InvalidDerived

  // ---------------------------------------------------------------- resources

  /** The order of Go strings. */
  predicate Less(a: string, b: string)
  {
    b != "" && (a == "" || a[0] < b[0] || (a[0] == b[0] && Less(a[1..], b[1..])))
  }

  lemma {:induction false} LessTotal(a: string, b: string)
    ensures a == b || Less(a, b) || Less(b, a)
    ensures !(Less(a, b) && Less(b, a)) && !Less(a, a)
  {
    if a != "" {
      LessTotal(a[1..], a[1..]);
    }
    if a != "" && b != "" {
      LessTotal(a[1..], b[1..]);
      assert a == [a[0]] + a[1..] && b == [b[0]] + b[1..];
    }
  }

  lemma {:induction false} LessTransitive(a: string, b: string, c: string)
    requires Less(a, b) && Less(b, c)
    ensures Less(a, c)
  {
    if a != "" && a[0] == b[0] && b[0] == c[0] {
      LessTransitive(a[1..], b[1..], c[1..]);
    }
  }

  function Trimmed(r: Resource): Resource
  {
    Resource(Trim(r.provider), Trim(r.apiVersion), Trim(r.kind), Trim(r.resource), Trim(r.name))
  }

  /** One selected resource in its normal form. */
  function NormalResource(f: Format, r: Resource): Option<Resource>
  {
    var t := Trimmed(r);
    if t.provider == "" || !f.refValid(t) || f.key(t) == "" then None else Some(t)
  }

  type Resources = seq<Resource>

  predicate HasKey(f: Format, rs: Resources, key: string)
  {
    exists i :: 0 <= i < |rs| && f.key(rs[i]) == key
  }

  /** Normalised, each key once, in order of first appearance. */
  function Deduped(f: Format, raw: Resources): Option<Resources>
  {
    if raw == [] then Some([])
    else
      match Deduped(f, raw[..|raw| - 1])
      case None => None
      case Some(before) =>
        match NormalResource(f, raw[|raw| - 1])
        case None => None
        case Some(r) => Some(if HasKey(f, before, f.key(r)) then before else before + [r])
  }

  function Insert(f: Format, sorted: Resources, r: Resource): Resources
  {
    if sorted == [] || !Less(f.key(r), f.key(sorted[|sorted| - 1])) then sorted + [r]
    else Insert(f, sorted[..|sorted| - 1], r) + [sorted[|sorted| - 1]]
  }

  function Sort(f: Format, rs: Resources): Resources
  {
    if rs == [] then [] else Insert(f, Sort(f, rs[..|rs| - 1]), rs[|rs| - 1])
  }

  /** normalizeProjectAssistantContextResources. */
  function CanonicalResources(f: Format, raw: Resources): Result<Resources, PartsError>
  {
    match Deduped(f, raw)
    case None => Failure(BadResource)
    case Some(rs) => if |rs| > MAX_RESOURCES then Failure(TooManyResources) else Success(Sort(f, rs))
  }

  /** Strictly ascending keys. */
  predicate Ascending(f: Format, rs: Resources)
  {
    forall i, j :: 0 <= i < j < |rs| ==> Less(f.key(rs[i]), f.key(rs[j]))
  }

  predicate DistinctKeys(f: Format, rs: Resources)
  {
    forall i, j :: 0 <= i < j < |rs| ==> f.key(rs[i]) != f.key(rs[j])
  }

  lemma {:induction false} InsertSorts(f: Format, sorted: Resources, r: Resource)
    requires Ascending(f, sorted) && !HasKey(f, sorted, f.key(r))
    ensures Ascending(f, Insert(f, sorted, r)) && |Insert(f, sorted, r)| == |sorted| + 1
    ensures forall x :: x in Insert(f, sorted, r) <==> x in sorted || x == r
  {
    hide Less;
    if sorted != [] {
      var init, last := sorted[..|sorted| - 1], sorted[|sorted| - 1];
      assert f.key(sorted[|sorted| - 1]) != f.key(r);
      LessTotal(f.key(r), f.key(last));
      assert sorted == init + [last];
      if Less(f.key(r), f.key(last)) {
        forall i | 0 <= i < |init|
          ensures init[i] == sorted[i] && f.key(init[i]) != f.key(r)
        {}
        InsertSorts(f, init, r);
        var out := Insert(f, init, r);
        forall i | 0 <= i < |out|
          ensures Less(f.key(out[i]), f.key(last))
        {
          assert out[i] in out;
          if out[i] != r {
            var k :| 0 <= k < |init| && init[k] == out[i];
            assert sorted[k] == out[i];
          }
        }
      } else {
        forall i | 0 <= i < |sorted|
          ensures Less(f.key(sorted[i]), f.key(r))
        {
          if i < |sorted| - 1 {
            LessTransitive(f.key(sorted[i]), f.key(last), f.key(r));
          }
        }
      }
    }
  }

  lemma {:induction false} SortSorts(f: Format, rs: Resources)
    requires DistinctKeys(f, rs)
    ensures Ascending(f, Sort(f, rs)) && |Sort(f, rs)| == |rs|
    ensures forall x :: x in Sort(f, rs) <==> x in rs
  {
    hide Less, Insert;
    if rs != [] {
      var init, last := rs[..|rs| - 1], rs[|rs| - 1];
      assert rs == init + [last];
      SortSorts(f, init);
      forall i | 0 <= i < |Sort(f, init)|
        ensures f.key(Sort(f, init)[i]) != f.key(last)
      {
        assert Sort(f, init)[i] in init;
        var k :| 0 <= k < |init| && init[k] == Sort(f, init)[i];
        assert rs[k] == init[k];
      }
      InsertSorts(f, Sort(f, init), last);
    }
  }

  /** A strictly ascending list is determined by its members. */
  lemma {:induction false} AscendingUnique(f: Format, a: Resources, b: Resources)
    requires Ascending(f, a) && Ascending(f, b) && forall x :: x in a <==> x in b
    ensures a == b
    decreases |a|
  {
    hide Less, Ascending;
    if a == [] {
      if b != [] {
        FirstIsMember(b);
      }
    } else {
      assert a[|a| - 1] in b;
      SameLast(f, a, b);
      var x, y := a[..|a| - 1], b[..|b| - 1];
      InitAscends(f, a);
      InitAscends(f, b);
      forall r
        ensures r in x <==> r in y
      {
        MemberOfInit(f, a, r);
        MemberOfInit(f, b, r);
      }
      AscendingUnique(f, x, y);
      assert a == x + [a[|a| - 1]] && b == y + [b[|b| - 1]];
    }
  }

  lemma FirstIsMember(rs: Resources)
    requires rs != []
    ensures exists x :: x in rs
  {
    assert rs[0] in rs;
  }

  lemma InitAscends(f: Format, rs: Resources)
    requires Ascending(f, rs) && rs != []
    ensures Ascending(f, rs[..|rs| - 1])
  {
    hide Less;
  }

  lemma SameLast(f: Format, a: Resources, b: Resources)
    requires Ascending(f, a) && Ascending(f, b) && (forall x :: x in a <==> x in b) && a != [] && b != []
    ensures a[|a| - 1] == b[|b| - 1]
  {
    hide Less;
    assert a[|a| - 1] in b && b[|b| - 1] in a;
    var k :| 0 <= k < |b| && b[k] == a[|a| - 1];
    var l :| 0 <= l < |a| && a[l] == b[|b| - 1];
    LessTotal(f.key(a[|a| - 1]), f.key(b[|b| - 1]));
  }

  lemma MemberOfInit(f: Format, rs: Resources, x: Resource)
    requires Ascending(f, rs) && rs != []
    ensures x in rs[..|rs| - 1] <==> x in rs && x != rs[|rs| - 1]
  {
    hide Less;
    var init, last := rs[..|rs| - 1], rs[|rs| - 1];
    assert rs == init + [last];
    forall i | 0 <= i < |init|
      ensures init[i] != last
    {
      LessTotal(f.key(last), f.key(last));
      assert Less(f.key(rs[i]), f.key(rs[|rs| - 1]));
    }
  }

  /** The resource is valid and has the key; resources that are spelt differently may share one. */
  predicate Keyed(f: Format, r: Resource, key: string)
  {
    NormalResource(f, r).Some? && f.key(NormalResource(f, r).value) == key
  }

  predicate HasRawKey(f: Format, raw: Resources, key: string)
  {
    exists i :: 0 <= i < |raw| && Keyed(f, raw[i], key)
  }

  /** `r` is the normal form of the first resource in the selection with its key. */
  ghost predicate Selects(f: Format, raw: Resources, r: Resource)
  {
    exists i :: 0 <= i < |raw| && NormalResource(f, raw[i]) == Some(r) && !HasRawKey(f, raw[..i], f.key(r))
  }

  lemma RawKeyStep(f: Format, raw: Resources, key: string)
    requires raw != []
    ensures HasRawKey(f, raw, key) <==> HasRawKey(f, raw[..|raw| - 1], key) || Keyed(f, raw[|raw| - 1], key)
  {
    hide Keyed;
    var init := raw[..|raw| - 1];
    if HasRawKey(f, init, key) {
      var i :| 0 <= i < |init| && Keyed(f, init[i], key);
      assert Keyed(f, raw[i], key);
    }
    if HasRawKey(f, raw, key) {
      var i :| 0 <= i < |raw| && Keyed(f, raw[i], key);
      assert i < |init| ==> Keyed(f, init[i], key);
    }
  }

  lemma SelectsStep(f: Format, raw: Resources, r: Resource)
    requires raw != []
    ensures var init := raw[..|raw| - 1];
            Selects(f, raw, r) <==>
              Selects(f, init, r)
              || (NormalResource(f, raw[|raw| - 1]) == Some(r) && !HasRawKey(f, init, f.key(r)))
  {
    hide NormalResource, HasRawKey;
    var init := raw[..|raw| - 1];
    assert forall i :: 0 <= i <= |init| ==> init[..i] == raw[..i];
    if Selects(f, init, r) {
      var i :| 0 <= i < |init| && NormalResource(f, init[i]) == Some(r) && !HasRawKey(f, init[..i], f.key(r));
      assert NormalResource(f, raw[i]) == Some(r) && !HasRawKey(f, raw[..i], f.key(r));
    }
    if Selects(f, raw, r) {
      var i :| 0 <= i < |raw| && NormalResource(f, raw[i]) == Some(r) && !HasRawKey(f, raw[..i], f.key(r));
      assert i < |init| ==> NormalResource(f, init[i]) == Some(r) && !HasRawKey(f, init[..i], f.key(r));
    }
    if NormalResource(f, raw[|raw| - 1]) == Some(r) && !HasRawKey(f, init, f.key(r)) {
      assert raw[..|init|] == init;
    }
  }

  lemma NormalTwice(f: Format, a: Resource)
    requires NormalResource(f, a).Some?
    ensures NormalResource(f, NormalResource(f, a).value) == NormalResource(f, a)
    ensures Trimmed(NormalResource(f, a).value) == NormalResource(f, a).value
    ensures f.key(NormalResource(f, a).value) != ""
  {
    hide Trim;
    TrimTight(a.provider);
    TrimTight(a.apiVersion);
    TrimTight(a.kind);
    TrimTight(a.resource);
    TrimTight(a.name);
  }

  /** What deduplication has kept of the raw resources. */
  ghost predicate KeepsFirsts(f: Format, raw: Resources, rs: Resources)
  {
    && DistinctKeys(f, rs) && (forall x :: x in rs <==> Selects(f, raw, x))
    && (forall x :: x in rs ==> NormalResource(f, x) == Some(x))
    && (forall key :: HasKey(f, rs, key) <==> HasRawKey(f, raw, key))
  }

  /** Deduplication keeps exactly the first normal form of each key. */
  lemma {:induction false} DedupedMeaning(f: Format, raw: Resources)
    ensures Deduped(f, raw).Some? <==> forall i :: 0 <= i < |raw| ==> NormalResource(f, raw[i]).Some?
    ensures Deduped(f, raw).Some? ==> KeepsFirsts(f, raw, Deduped(f, raw).value)
    decreases |raw|
  {
    hide NormalResource, KeepsFirsts;
    if raw == [] {
      NothingSelected(f);
    } else {
      var init, last := raw[..|raw| - 1], raw[|raw| - 1];
      assert raw == init + [last];
      DedupedMeaning(f, init);
      if Deduped(f, init).Some? && NormalResource(f, last).Some? {
        DedupedStep(f, raw, Deduped(f, init).value, NormalResource(f, last).value);
      }
    }
  }

  lemma NothingSelected(f: Format)
    ensures KeepsFirsts(f, [], [])
  {}

  lemma DedupedStep(f: Format, raw: Resources, before: Resources, r: Resource)
    requires raw != [] && NormalResource(f, raw[|raw| - 1]) == Some(r) && KeepsFirsts(f, raw[..|raw| - 1], before)
    ensures KeepsFirsts(f, raw, if HasKey(f, before, f.key(r)) then before else before + [r])
  {
    hide NormalResource, Selects, HasKey, HasRawKey, Keyed;
    var init, last := raw[..|raw| - 1], raw[|raw| - 1];
    NormalTwice(f, last);
    LastKeyed(f, last, r);
    forall key
      ensures HasRawKey(f, raw, key) <==> HasRawKey(f, init, key) || key == f.key(r)
    {
      RawKeyStep(f, raw, key);
    }
    forall x
      ensures Selects(f, raw, x) <==> x in before || (x == r && !HasKey(f, before, f.key(r)))
    {
      SelectsStep(f, raw, x);
    }
    if !HasKey(f, before, f.key(r)) {
      HasKeyAppend(f, before, r);
      OtherKeys(f, before, r);
    }
  }

  lemma LastKeyed(f: Format, last: Resource, r: Resource)
    requires NormalResource(f, last) == Some(r)
    ensures forall key :: Keyed(f, last, key) <==> key == f.key(r)
  {}

  lemma OtherKeys(f: Format, before: Resources, r: Resource)
    requires !HasKey(f, before, f.key(r))
    ensures forall i :: 0 <= i < |before| ==> f.key(before[i]) != f.key(r)
  {}

  /** All resources of a raw selection are valid. */
  ghost predicate AllValid(f: Format, raw: Resources)
  {
    forall i :: 0 <= i < |raw| ==> NormalResource(f, raw[i]).Some?
  }

  /** The same spelling comes first for each key. */
  ghost predicate SameSpelling(f: Format, a: Resources, b: Resources)
  {
    forall x :: Selects(f, a, x) <==> Selects(f, b, x)
  }

  /**
    Selections in which the same spelling comes first for each key have the same canonical
    resources: order and repetition do not matter.
   */
  lemma CanonicalOfSelection(f: Format, a: Resources, b: Resources)
    requires (AllValid(f, a) <==> AllValid(f, b)) && SameSpelling(f, a, b)
    ensures CanonicalResources(f, a) == CanonicalResources(f, b)
  {
    hide NormalResource, Selects, Deduped, Sort, Ascending, DistinctKeys, HasKey, HasRawKey;
    DedupedMeaning(f, a);
    DedupedMeaning(f, b);
    if Deduped(f, a).Some? {
      var x, y := Deduped(f, a).value, Deduped(f, b).value;
      SortSorts(f, x);
      SortSorts(f, y);
      AscendingUnique(f, Sort(f, x), Sort(f, y));
    }
  }

  /** Canonical resources are their own canonical form, and hold exactly the first spelling of each key. */
  lemma CanonicalMeaning(f: Format, raw: Resources)
    requires CanonicalResources(f, raw).Success?
    ensures var rs := CanonicalResources(f, raw).value;
            && CanonicalResources(f, rs) == Success(rs) && Ascending(f, rs) && |rs| <= MAX_RESOURCES
            && (forall x :: x in rs <==> Selects(f, raw, x))
            && (forall x :: x in rs ==> NormalResource(f, x) == Some(x))
  {
    hide NormalResource, Selects, Deduped, Sort, Ascending, DistinctKeys, HasKey, HasRawKey;
    DedupedMeaning(f, raw);
    var rs := CanonicalResources(f, raw).value;
    SortSorts(f, Deduped(f, raw).value);
    forall x
      ensures Selects(f, rs, x) <==> x in rs
    {
      SelectsNormal(f, rs, x);
    }
    forall i | 0 <= i < |rs|
      ensures NormalResource(f, rs[i]).Some?
    {
      assert rs[i] in rs;
    }
    CanonicalOfSelection(f, raw, rs);
  }

  /** In a list of normal forms with different keys every member is the first of its key. */
  lemma SelectsNormal(f: Format, rs: Resources, x: Resource)
    requires Ascending(f, rs) && forall y :: y in rs ==> NormalResource(f, y) == Some(y)
    ensures Selects(f, rs, x) <==> x in rs
  {
    hide NormalResource, Less;
    if x in rs {
      var i :| 0 <= i < |rs| && rs[i] == x;
      assert NormalResource(f, rs[i]) == Some(x);
      if HasRawKey(f, rs[..i], f.key(x)) {
        var k :| 0 <= k < |rs[..i]| && Keyed(f, rs[..i][k], f.key(x));
        assert rs[k] in rs && Less(f.key(rs[k]), f.key(rs[i]));
        LessTotal(f.key(x), f.key(x));
        assert false;
      }
    }
    if Selects(f, rs, x) {
      var i :| 0 <= i < |rs| && NormalResource(f, rs[i]) == Some(x) && !HasRawKey(f, rs[..i], f.key(x));
      assert rs[i] in rs;
    }
  }

  /** Position of the resource with this key, or -1. */
  function Position(f: Format, rs: Resources, key: string): (k: int)
    ensures -1 <= k < |rs|
    ensures k >= 0 ==> f.key(rs[k]) == key
    ensures k == -1 ==> !HasKey(f, rs, key)
  {
    if rs == [] then -1
    else if f.key(rs[|rs| - 1]) == key then |rs| - 1
    else Position(f, rs[..|rs| - 1], key)
  }

  /** Where each raw resource is in the canonical list. */
  function CanonicalIndex(f: Format, canonical: Resources, r: Resource): Option<int>
  {
    match NormalResource(f, r)
    case None => None
    case Some(normal) =>
      var k := Position(f, canonical, f.key(normal));
      if k < 0 then None else Some(k)
  }

  /** Each raw index leads to the resource that was listed first under its key. */
  lemma IndexOfSelected(f: Format, raw: Resources, i: nat)
    requires CanonicalResources(f, raw).Success? && i < |raw|
    ensures var rs := CanonicalResources(f, raw).value;
            && NormalResource(f, raw[i]).Some? && CanonicalIndex(f, rs, raw[i]).Some?
            && var found, normal := rs[CanonicalIndex(f, rs, raw[i]).value], NormalResource(f, raw[i]).value;
               && f.key(found) == f.key(normal) && Selects(f, raw, found)
               && (Selects(f, raw, normal) ==> found == normal)
  {
    hide NormalResource, Less, CanonicalResources, Position, Selects, Ascending, HasRawKey, Keyed;
    var rs := CanonicalResources(f, raw).value;
    CanonicalMeaning(f, raw);
    CanonicalKeys(f, raw);
    var normal := NormalResource(f, raw[i]).value;
    OwnKey(f, raw, i);
    var k := Position(f, rs, f.key(normal));
    assert rs[k] in rs;
    if Selects(f, raw, normal) {
      OneOfKey(f, rs, rs[k], normal);
    }
  }

  lemma OneOfKey(f: Format, rs: Resources, x: Resource, y: Resource)
    requires Ascending(f, rs) && x in rs && y in rs && f.key(x) == f.key(y)
    ensures x == y
  {
    hide Less;
    var i :| 0 <= i < |rs| && rs[i] == x;
    var j :| 0 <= j < |rs| && rs[j] == y;
    LessTotal(f.key(x), f.key(y));
  }

  lemma OwnKey(f: Format, raw: Resources, i: nat)
    requires i < |raw| && NormalResource(f, raw[i]).Some?
    ensures HasRawKey(f, raw, f.key(NormalResource(f, raw[i]).value))
  {
    hide NormalResource;
    assert Keyed(f, raw[i], f.key(NormalResource(f, raw[i]).value));
  }

  lemma CanonicalKeys(f: Format, raw: Resources)
    requires CanonicalResources(f, raw).Success?
    ensures AllValid(f, raw)
    ensures forall key :: HasKey(f, CanonicalResources(f, raw).value, key) <==> HasRawKey(f, raw, key)
  {
    hide NormalResource, Selects, Deduped, Sort, Ascending, DistinctKeys, HasRawKey, HasKey;
    DedupedMeaning(f, raw);
    SortSorts(f, Deduped(f, raw).value);
    SameMembersSameKeys(f, Deduped(f, raw).value, Sort(f, Deduped(f, raw).value));
  }

  lemma SameMembersSameKeys(f: Format, a: Resources, b: Resources)
    requires forall x :: x in a <==> x in b
    ensures forall key :: HasKey(f, a, key) <==> HasKey(f, b, key)
  {
    forall key
      ensures HasKey(f, a, key) <==> HasKey(f, b, key)
    {
      if HasKey(f, a, key) {
        var i :| 0 <= i < |a| && f.key(a[i]) == key;
        assert a[i] in b;
      }
      if HasKey(f, b, key) {
        var i :| 0 <= i < |b| && f.key(b[i]) == key;
        assert b[i] in a;
      }
    }
  }

  /** A canonical resource stands at its own index. */
  lemma IndexOfCanonical(f: Format, rs: Resources, i: nat)
    requires Ascending(f, rs) && i < |rs| && NormalResource(f, rs[i]) == Some(rs[i])
    ensures CanonicalIndex(f, rs, rs[i]) == Some(i)
  {
    hide NormalResource, Less, Position;
    var k := Position(f, rs, f.key(rs[i]));
    assert HasKey(f, rs, f.key(rs[i]));
    LessTotal(f.key(rs[i]), f.key(rs[i]));
  }

  /** The loop with its set of keys. */
  method DedupeResources(f: Format, raw: Resources) returns (r: Option<Resources>)
    ensures r == Deduped(f, raw)
  {
    hide NormalResource, Deduped, HasKey;
    var seen: set<string>, out: Resources := {}, [];
    NothingDeduped(f, raw);
    for i := 0 to |raw|
      invariant Deduped(f, raw[..i]) == Some(out)
      invariant forall key :: key in seen <==> HasKey(f, out, key)
    {
      DedupedNext(f, raw, i);
      match NormalResource(f, raw[i])
      case None =>
        DedupedStops(f, raw, i + 1);
        return None;
      case Some(normal) =>
        if f.key(normal) in seen {
          continue;
        }
        HasKeyAppend(f, out, normal);
        seen := seen + {f.key(normal)};
        out := out + [normal];
    }
    assert raw[..|raw|] == raw;
    return Some(out);
  }

  lemma NothingDeduped(f: Format, raw: Resources)
    ensures Deduped(f, raw[..0]) == Some([]) && forall key :: !HasKey(f, [], key)
  {}

  method NormalizeResources(f: Format, raw: Resources) returns (r: Result<Resources, PartsError>)
    ensures r == CanonicalResources(f, raw)
  {
    hide Deduped, Sort;
    var deduped := DedupeResources(f, raw);
    match deduped
    case None => return Failure(BadResource);
    case Some(out) =>
      if |out| > MAX_RESOURCES {
        return Failure(TooManyResources);
      }
      return Success(Sort(f, out));
  }

  lemma DedupedNext(f: Format, raw: Resources, i: nat)
    requires i < |raw| && Deduped(f, raw[..i]).Some?
    ensures NormalResource(f, raw[i]).None? ==> Deduped(f, raw[..i + 1]).None?
    ensures NormalResource(f, raw[i]).Some? ==>
              var before, r := Deduped(f, raw[..i]).value, NormalResource(f, raw[i]).value;
              Deduped(f, raw[..i + 1]) == Some(if HasKey(f, before, f.key(r)) then before else before + [r])
  {
    hide NormalResource;
    assert raw[..i + 1][..i] == raw[..i];
  }

  lemma {:induction false} DedupedStops(f: Format, raw: Resources, n: nat)
    requires n <= |raw| && Deduped(f, raw[..n]).None?
    ensures Deduped(f, raw).None?
    decreases |raw| - n
  {
    hide NormalResource;
    if n == |raw| {
      assert raw[..n] == raw;
    } else {
      assert raw[..n + 1][..n] == raw[..n];
      DedupedStops(f, raw, n + 1);
    }
  }

  lemma HasKeyAppend(f: Format, rs: Resources, r: Resource)
    ensures forall key :: HasKey(f, rs + [r], key) <==> HasKey(f, rs, key) || key == f.key(r)
  {
    var all := rs + [r];
    forall key
      ensures HasKey(f, all, key) <==> HasKey(f, rs, key) || key == f.key(r)
    {
      if HasKey(f, rs, key) {
        var i :| 0 <= i < |rs| && f.key(rs[i]) == key;
        assert f.key(all[i]) == key;
      }
      if key == f.key(r) {
        assert f.key(all[|rs|]) == key;
      }
    }
  }

  // ---------------------------------------------------------------- parts

  /**
    A part as it arrives, its type already trimmed and lower-cased. `stray` says that it
    also carries a field of another type.
   */
  datatype RawPart =
    | RawText(text: Bytes, stray: bool)
    | RawSkill(skillID: string, stray: bool)
    | RawResource(index: Option<int>, stray: bool)
    | RawAnnotation(annotation: Option<Annotation>, stray: bool)
    | RawAttachment(receipt: Option<Chat.Receipt>, stray: bool)
    | RawUnknown(stray: bool)

  datatype Part =
    | TextPart(text: Bytes)
    | SkillPart(skillID: string)
    | ResourcePart(index: int)
    | AnnotationPart(annotation: Annotation)
    | AttachmentPart(receipt: Chat.Receipt)

  type Parts = seq<Part>

  /** What the loop reads: the selections, and where each raw resource index leads. */
  datatype Config = Config(f: Format, resources: Resources, index: seq<Option<int>>, skills: set<string>)

  datatype State = State(
    parts: Parts, skills: set<string>, used: set<int>, annotations: set<string>, attachments: set<string>,
    attachmentBytes: int, derived: Bytes)

  const START := State([], {}, {}, {}, {}, 0, [])

  predicate EndsInText(parts: Parts) { parts != [] && parts[|parts| - 1].TextPart? }

  function AddText(parts: Parts, text: Bytes): Parts
  {
    if EndsInText(parts)
    then parts[..|parts| - 1] + [TextPart(parts[|parts| - 1].text + text)]
    else parts + [TextPart(text)]
  }

  /** The two limits checked after every part. */
  function Checked(s: State): Result<State, PartsError>
  {
    if |s.parts| > MAX_PARTS then Failure(TooManyNormalized)
    else if |s.derived| > MAX_DERIVED then Failure(TooLong)
    else Success(s)
  }

  function SkillStep(c: Config, s: State, skillID: string): Result<State, PartsError>
  {
    var id := Trim(skillID);
    if id == "" then Failure(MissingSkill)
    else if !c.f.skillValid(id) then Failure(InvalidSkill)
    else if id !in c.skills then Failure(UnselectedSkill)
    else Checked(s.(parts := s.parts + [SkillPart(id)], skills := s.skills + {id}, derived := s.derived + c.f.skillText(id)))
  }

  function ResourceStep(c: Config, s: State, index: Option<int>): Result<State, PartsError>
  {
    match index
    case None => Failure(MissingIndex)
    case Some(i) =>
      if i < 0 || i >= |c.index| || c.index[i].None? then Failure(IndexOutOfRange)
      else
        var k := c.index[i].value;
        if k < 0 || k >= |c.resources| then Failure(IndexOutOfRange)
        else
          Checked(s.(parts := s.parts + [ResourcePart(k)], used := s.used + {k},
                     derived := s.derived + c.f.resourceText(c.resources[k])))
  }

  function AnnotationStep(c: Config, s: State, annotation: Option<Annotation>): Result<State, PartsError>
  {
    if annotation.None? then Failure(MissingAnnotation)
    else
      match c.f.annotation(annotation.value)
      case None => Failure(InvalidAnnotation)
      case Some(a) =>
        if a.id in s.annotations then Failure(DuplicateAnnotation)
        else
          Checked(s.(parts := s.parts + [AnnotationPart(a)], annotations := s.annotations + {a.id},
                     derived := s.derived + c.f.annotationText(a)))
  }

  function AttachmentStep(c: Config, s: State, receipt: Option<Chat.Receipt>): Result<State, PartsError>
  {
    if receipt.None? then Failure(MissingAttachment)
    else
      match c.f.receipt(receipt.value)
      case None => Failure(InvalidAttachment)
      case Some(r) =>
        if r.id in s.attachments then Failure(DuplicateAttachment)
        else if |s.attachments + {r.id}| > c.f.maxAttachments then Failure(TooManyAttachments)
        else if s.attachmentBytes + r.sizeBytes > c.f.maxAttachmentBytes then Failure(AttachmentsTooLarge)
        else
          Checked(s.(parts := s.parts + [AttachmentPart(r)], attachments := s.attachments + {r.id},
                     attachmentBytes := s.attachmentBytes + r.sizeBytes, derived := s.derived + c.f.receiptText(r)))
  }

  function TextStep(s: State, text: Bytes): Result<State, PartsError>
  {
    if !Valid(text) then Failure(InvalidText)
    else if text == [] then Success(s)
    else Checked(s.(parts := AddText(s.parts, text), derived := s.derived + text))
  }

  function Step(c: Config, s: State, raw: RawPart): Result<State, PartsError>
  {
    if raw.RawUnknown? then Failure(UnknownType)
    else if raw.stray then Failure(StrayFields)
    else
      match raw
      case RawText(text, _) => TextStep(s, text)
      case RawSkill(skillID, _) => SkillStep(c, s, skillID)
      case RawResource(index, _) => ResourceStep(c, s, index)
      case RawAnnotation(annotation, _) => AnnotationStep(c, s, annotation)
      case RawAttachment(receipt, _) => AttachmentStep(c, s, receipt)
      case RawUnknown(_) => Failure(UnknownType)
  }

  function Fold(c: Config, start: Result<State, PartsError>, raw: seq<RawPart>): Result<State, PartsError>
  {
    if raw == [] then start
    else
      match Fold(c, start, raw[..|raw| - 1])
      case Failure(e) => Failure(e)
      case Success(s) => Step(c, s, raw[|raw| - 1])
  }

  /** The canonical content of a turn. */
  datatype Turn = Turn(parts: Parts, resources: Resources, derived: Bytes)

  function Indexes(f: Format, canonical: Resources, raw: Resources): (r: seq<Option<int>>)
    ensures |r| == |raw|
  {
    seq(|raw|, (i: nat) requires i < |raw| => CanonicalIndex(f, canonical, raw[i]))
  }

  function Selected(ids: seq<string>): set<string>
  {
    set i | 0 <= i < |ids| && Trim(ids[i]) != "" :: Trim(ids[i])
  }

  /** Nothing is left out: some content, every selected skill, every selected resource. */
  function Finished(c: Config, s: State): Result<Turn, PartsError>
  {
    if s.parts == [] then Failure(NoContent)
    else if !(c.skills <= s.skills) then Failure(SkillNotRepresented)
    else if !(forall k :: 0 <= k < |c.resources| ==> k in s.used) then Failure(ResourceNotRepresented)
    else if !Valid(s.derived) then Failure(InvalidDerived)
    else Success(Turn(s.parts, c.resources, s.derived))
  }

  function Configured(f: Format, skillIDs: seq<string>, resources: Resources, canonical: Resources): Config
  {
    Config(f, canonical, Indexes(f, canonical, resources), Selected(skillIDs))
  }

  function Normalized(f: Format, raw: seq<RawPart>, skillIDs: seq<string>, resources: Resources): Result<Turn, PartsError>
  {
    if |raw| > MAX_PARTS then Failure(TooManyParts)
    else
      match CanonicalResources(f, resources)
      case Failure(e) => Failure(e)
      case Success(canonical) =>
        var c := Configured(f, skillIDs, resources, canonical);
        match Fold(c, Success(START), raw)
        case Failure(e) => Failure(e)
        case Success(s) => Finished(c, s)
  }

  // ---------------------------------------------------------------- the loop

  lemma FoldStep(c: Config, start: Result<State, PartsError>, raw: seq<RawPart>, i: nat)
    requires i < |raw|
    ensures Fold(c, start, raw[..i + 1])
         == match Fold(c, start, raw[..i]) case Failure(e) => Failure(e) case Success(s) => Step(c, s, raw[i])
  {
    hide Step;
    assert raw[..i + 1][..i] == raw[..i];
  }

  lemma {:induction false} FoldStops(c: Config, start: Result<State, PartsError>, raw: seq<RawPart>, n: nat)
    requires n <= |raw| && Fold(c, start, raw[..n]).Failure?
    ensures Fold(c, start, raw) == Fold(c, start, raw[..n])
    decreases |raw| - n
  {
    hide Step;
    if n == |raw| {
      assert raw[..n] == raw;
    } else {
      FoldStep(c, start, raw, n);
      FoldStops(c, start, raw, n + 1);
    }
  }

  /** One pass through the switch, on copies of the loop's variables. */
  method TakePart(c: Config, s: State, raw: RawPart) returns (r: Result<State, PartsError>)
    ensures r == Step(c, s, raw)
  {
    hide Trim, Valid;
    if raw.RawUnknown? {
      return Failure(UnknownType);
    }
    if raw.stray {
      return Failure(StrayFields);
    }
    var parts, derived := s.parts, s.derived;
    var skills, used, annotations, attachments, bytes := s.skills, s.used, s.annotations, s.attachments, s.attachmentBytes;
    match raw {
      case RawText(text, _) =>
        if !Valid(text) {
          return Failure(InvalidText);
        }
        if text == [] {
          return Success(s);
        }
        if |parts| > 0 && parts[|parts| - 1].TextPart? {
          parts := parts[..|parts| - 1] + [TextPart(parts[|parts| - 1].text + text)];
        } else {
          parts := parts + [TextPart(text)];
        }
        derived := derived + text;
      case RawSkill(skillID, _) =>
        var id := Trim(skillID);
        if id == "" {
          return Failure(MissingSkill);
        }
        if !c.f.skillValid(id) {
          return Failure(InvalidSkill);
        }
        if id !in c.skills {
          return Failure(UnselectedSkill);
        }
        parts, skills, derived := parts + [SkillPart(id)], skills + {id}, derived + c.f.skillText(id);
      case RawResource(index, _) =>
        match index {
          case None => return Failure(MissingIndex);
          case Some(i) =>
            if i < 0 || i >= |c.index| {
              return Failure(IndexOutOfRange);
            }
            match c.index[i] {
              case None => return Failure(IndexOutOfRange);
              case Some(k) =>
                if k < 0 || k >= |c.resources| {
                  return Failure(IndexOutOfRange);
                }
                parts, used := parts + [ResourcePart(k)], used + {k};
                derived := derived + c.f.resourceText(c.resources[k]);
            }
        }
      case RawAnnotation(annotation, _) =>
        match annotation {
          case None => return Failure(MissingAnnotation);
          case Some(given) =>
            match c.f.annotation(given) {
              case None => return Failure(InvalidAnnotation);
              case Some(a) =>
                if a.id in annotations {
                  return Failure(DuplicateAnnotation);
                }
                annotations := annotations + {a.id};
                parts, derived := parts + [AnnotationPart(a)], derived + c.f.annotationText(a);
            }
        }
      case RawAttachment(receipt, _) =>
        match receipt {
          case None => return Failure(MissingAttachment);
          case Some(given) =>
            match c.f.receipt(given) {
              case None => return Failure(InvalidAttachment);
              case Some(a) =>
                if a.id in attachments {
                  return Failure(DuplicateAttachment);
                }
                attachments := attachments + {a.id};
                if |attachments| > c.f.maxAttachments {
                  return Failure(TooManyAttachments);
                }
                bytes := bytes + a.sizeBytes;
                if bytes > c.f.maxAttachmentBytes {
                  return Failure(AttachmentsTooLarge);
                }
                parts, derived := parts + [AttachmentPart(a)], derived + c.f.receiptText(a);
            }
        }
      case RawUnknown(_) => return Failure(UnknownType);
    }
    if |parts| > MAX_PARTS {
      return Failure(TooManyNormalized);
    }
    if |derived| > MAX_DERIVED {
      return Failure(TooLong);
    }
    return Success(State(parts, skills, used, annotations, attachments, bytes, derived));
  }

  /** normalizeProjectAssistantContentParts. */
  method NormalizeParts(f: Format, raw: seq<RawPart>, skillIDs: seq<string>, resources: Resources)
    returns (r: Result<Turn, PartsError>)
    ensures r == Normalized(f, raw, skillIDs, resources)
  {
    hide CanonicalResources, Step, Valid, Selected, CanonicalIndex;
    if |raw| > MAX_PARTS {
      return Failure(TooManyParts);
    }
    var selection := NormalizeResources(f, resources);
    match selection
    case Failure(e) => return Failure(e);
    case Success(canonical) =>
      var c := Configured(f, skillIDs, resources, canonical);
      var s := START;
      for i := 0 to |raw|
        invariant Fold(c, Success(START), raw[..i]) == Success(s)
      {
        hide Fold;
        FoldStep(c, Success(START), raw, i);
        var taken := TakePart(c, s, raw[i]);
        match taken {
          case Failure(e) =>
            FoldStops(c, Success(START), raw, i + 1);
            return Failure(e);
          case Success(next) => s := next;
        }
      }
      assert raw[..|raw|] == raw;
      if |s.parts| == 0 {
        return Failure(NoContent);
      }
      if !(c.skills <= s.skills) {
        return Failure(SkillNotRepresented);
      }
      for k := 0 to |c.resources|
        invariant forall j :: 0 <= j < k ==> j in s.used
      {
        if k !in s.used {
          return Failure(ResourceNotRepresented);
        }
      }
      if !Valid(s.derived) {
        return Failure(InvalidDerived);
      }
      return Success(Turn(s.parts, c.resources, s.derived));
  }

  // ---------------------------------------------------------------- canonical parts

  /** What one canonical part contributes to the prompt. */
  function Rendered(c: Config, p: Part): Bytes
  {
    match p
    case TextPart(text) => text
    case SkillPart(id) => c.f.skillText(id)
    case ResourcePart(k) => if 0 <= k < |c.resources| then c.f.resourceText(c.resources[k]) else []
    case AnnotationPart(a) => c.f.annotationText(a)
    case AttachmentPart(r) => c.f.receiptText(r)
  }

  /** The state a list of canonical parts stands for: every part adds its share. */
  function Grown(c: Config, s: State, p: Part): State
  {
    State(
      s.parts + [p],
      if p.SkillPart? then s.skills + {p.skillID} else s.skills,
      if p.ResourcePart? then s.used + {p.index} else s.used,
      if p.AnnotationPart? then s.annotations + {p.annotation.id} else s.annotations,
      if p.AttachmentPart? then s.attachments + {p.receipt.id} else s.attachments,
      if p.AttachmentPart? then s.attachmentBytes + p.receipt.sizeBytes else s.attachmentBytes,
      s.derived + Rendered(c, p))
  }

  function StateOf(c: Config, parts: Parts): (s: State)
  {
    if parts == [] then START else Grown(c, StateOf(c, parts[..|parts| - 1]), parts[|parts| - 1])
  }

  /** Part `p` may follow the parts of `s`. */
  predicate Fits(c: Config, s: State, p: Part)
  {
    match p
    case TextPart(text) => text != [] && Valid(text) && !EndsInText(s.parts)
    case SkillPart(id) => id != "" && Trim(id) == id && c.f.skillValid(id) && id in c.skills
    case ResourcePart(k) => 0 <= k < |c.resources|
    case AnnotationPart(a) => c.f.annotation(a) == Some(a) && a.id !in s.annotations
    case AttachmentPart(r) =>
      && c.f.receipt(r) == Some(r) && r.id !in s.attachments
      && |s.attachments + {r.id}| <= c.f.maxAttachments && s.attachmentBytes + r.sizeBytes <= c.f.maxAttachmentBytes
  }

  /** Canonical parts: each fits behind the ones before it, within the limits. */
  predicate Canonical(c: Config, parts: Parts)
  {
    parts == [] ||
      (&& Canonical(c, parts[..|parts| - 1]) && Fits(c, StateOf(c, parts[..|parts| - 1]), parts[|parts| - 1])
       && |parts| <= MAX_PARTS && |StateOf(c, parts).derived| <= MAX_DERIVED)
  }

  lemma StateOfOne(c: Config, parts: Parts, p: Part)
    ensures StateOf(c, parts + [p]) == Grown(c, StateOf(c, parts), p)
    ensures Canonical(c, parts + [p]) <==>
              Canonical(c, parts) && Fits(c, StateOf(c, parts), p)
              && |parts| < MAX_PARTS && |Grown(c, StateOf(c, parts), p).derived| <= MAX_DERIVED
  {
    hide Fits, Grown;
    assert (parts + [p])[..|parts|] == parts && (parts + [p])[|parts|] == p;
  }

  lemma {:induction false} StateParts(c: Config, parts: Parts)
    ensures StateOf(c, parts).parts == parts
  {
    hide Grown;
    if parts != [] {
      StateParts(c, parts[..|parts| - 1]);
      GrownParts(c, StateOf(c, parts[..|parts| - 1]), parts[|parts| - 1]);
    }
  }

  lemma GrownParts(c: Config, s: State, p: Part)
    ensures Grown(c, s, p).parts == s.parts + [p]
  {
    hide Rendered;
  }

  /** The state stands for its own parts, and they are canonical. */
  predicate Faithful(c: Config, s: State)
  {
    s == StateOf(c, s.parts) && Canonical(c, s.parts)
  }

  lemma FaithfulLimits(c: Config, s: State)
    requires Faithful(c, s)
    ensures |s.parts| <= MAX_PARTS && |s.derived| <= MAX_DERIVED
  {
    hide Fits, Grown;
  }

  lemma FaithfulGrows(c: Config, s: State, p: Part)
    requires Faithful(c, s) && Fits(c, s, p) && Checked(Grown(c, s, p)).Success?
    ensures Faithful(c, Grown(c, s, p))
  {
    hide Fits, StateOf, Canonical, Rendered;
    StateOfOne(c, s.parts, p);
  }

  /** More text behind a text part is one longer text part. */
  lemma TextGrows(c: Config, s: State, text: Bytes)
    requires Faithful(c, s) && text != [] && Valid(text)
    requires Checked(s.(parts := AddText(s.parts, text), derived := s.derived + text)).Success?
    ensures Faithful(c, s.(parts := AddText(s.parts, text), derived := s.derived + text))
  {
    hide StateOf, Canonical, Valid;
    var next := s.(parts := AddText(s.parts, text), derived := s.derived + text);
    if EndsInText(s.parts) {
      var init, last := s.parts[..|s.parts| - 1], s.parts[|s.parts| - 1];
      assert s.parts == init + [last];
      StateOfOne(c, init, last);
      StateOfOne(c, init, TextPart(last.text + text));
      StateParts(c, init);
      ValidConcat(last.text, text);
      Seqs.Assoc(StateOf(c, init).derived, last.text, text);
    } else {
      StateOfOne(c, s.parts, TextPart(text));
    }
  }

  lemma StepFaithful(c: Config, s: State, raw: RawPart)
    requires Sound(c.f) && Faithful(c, s) && Step(c, s, raw).Success?
    ensures Faithful(c, Step(c, s, raw).value)
  {
    hide Faithful, Valid, Trim;
    match raw
    case RawText(text, _) =>
      if text != [] {
        TextGrows(c, s, text);
      }
    case RawSkill(skillID, _) =>
      TrimTight(skillID);
      FaithfulGrows(c, s, SkillPart(Trim(skillID)));
    case RawResource(index, _) =>
      FaithfulGrows(c, s, ResourcePart(c.index[index.value].value));
    case RawAnnotation(annotation, _) =>
      FaithfulGrows(c, s, AnnotationPart(c.f.annotation(annotation.value).value));
    case RawAttachment(receipt, _) =>
      FaithfulGrows(c, s, AttachmentPart(c.f.receipt(receipt.value).value));
    case RawUnknown(_) =>
  }

  lemma {:induction false} FoldFaithful(c: Config, raw: seq<RawPart>)
    requires Sound(c.f) && Fold(c, Success(START), raw).Success?
    ensures Faithful(c, Fold(c, Success(START), raw).value)
  {
    hide Faithful, Step, Sound;
    if raw == [] {
      StartFaithful(c);
    } else {
      FoldFaithful(c, raw[..|raw| - 1]);
      StepFaithful(c, Fold(c, Success(START), raw[..|raw| - 1]).value, raw[|raw| - 1]);
    }
  }

  lemma StartFaithful(c: Config)
    ensures Faithful(c, START)
  {}

  /** The prompt text is the concatenation of what the parts contribute. */
  function Prompt(c: Config, parts: Parts): Bytes
  {
    if parts == [] then [] else Prompt(c, parts[..|parts| - 1]) + Rendered(c, parts[|parts| - 1])
  }

  lemma {:induction false} DerivedIsPrompt(c: Config, parts: Parts)
    ensures StateOf(c, parts).derived == Prompt(c, parts)
  {
    hide Rendered;
    if parts != [] {
      DerivedIsPrompt(c, parts[..|parts| - 1]);
    }
  }

  lemma {:induction false} UsedMeaning(c: Config, parts: Parts)
    ensures forall id :: id in StateOf(c, parts).skills <==> SkillPart(id) in parts
    ensures forall k :: k in StateOf(c, parts).used <==> ResourcePart(k) in parts
  {
    hide Rendered;
    if parts != [] {
      var init := parts[..|parts| - 1];
      UsedMeaning(c, init);
      assert parts == init + [parts[|parts| - 1]];
    }
  }

  /**
    What normalisation promises: canonical parts within the limits, their renderings in
    order as the prompt text, and every selected skill and resource represented.
   */
  lemma NormalizedMeaning(f: Format, raw: seq<RawPart>, skillIDs: seq<string>, resources: Resources)
    requires Sound(f) && Normalized(f, raw, skillIDs, resources).Success?
    ensures CanonicalResources(f, resources).Success?
    ensures var t := Normalized(f, raw, skillIDs, resources).value;
            var c := Configured(f, skillIDs, resources, t.resources);
            && t.resources == CanonicalResources(f, resources).value
            && t.parts != [] && |t.parts| <= MAX_PARTS && Canonical(c, t.parts)
            && t.derived == Prompt(c, t.parts) && |t.derived| <= MAX_DERIVED && Valid(t.derived)
            && (forall id :: id in Selected(skillIDs) ==> SkillPart(id) in t.parts)
            && (forall k :: 0 <= k < |t.resources| ==> ResourcePart(k) in t.parts)
  {
    hide CanonicalResources, Fold, Configured, Selected, StateOf, Canonical, Prompt, Valid, Sound;
    var canonical := CanonicalResources(f, resources).value;
    var c := Configured(f, skillIDs, resources, canonical);
    ConfiguredFields(f, skillIDs, resources, canonical);
    var s := Fold(c, Success(START), raw).value;
    FoldFaithful(c, raw);
    FaithfulLimits(c, s);
    DerivedIsPrompt(c, s.parts);
    UsedMeaning(c, s.parts);
  }

  lemma ConfiguredFields(f: Format, skillIDs: seq<string>, resources: Resources, canonical: Resources)
    ensures var c := Configured(f, skillIDs, resources, canonical);
            c.f == f && c.resources == canonical && c.skills == Selected(skillIDs)
  {
    hide Selected;
  }

  // ---------------------------------------------------------------- normalising twice

  /** A canonical part, sent in again. */
  function Again(p: Part): RawPart
  {
    match p
    case TextPart(text) => RawText(text, false)
    case SkillPart(id) => RawSkill(id, false)
    case ResourcePart(k) => RawResource(Some(k), false)
    case AnnotationPart(a) => RawAnnotation(Some(a), false)
    case AttachmentPart(r) => RawAttachment(Some(r), false)
  }

  function AllAgain(parts: Parts): (raw: seq<RawPart>)
    ensures |raw| == |parts|
  {
    if parts == [] then [] else AllAgain(parts[..|parts| - 1]) + [Again(parts[|parts| - 1])]
  }

  /** Every canonical resource is at its own index. */
  predicate Direct(c: Config)
  {
    |c.index| == |c.resources| && forall k :: 0 <= k < |c.index| ==> c.index[k] == Some(k)
  }

  lemma StepAgain(c: Config, s: State, p: Part)
    requires Direct(c) && Fits(c, s, p) && Checked(Grown(c, s, p)).Success?
    ensures Step(c, s, Again(p)) == Success(Grown(c, s, p))
  {
    hide Valid, Trim;
  }

  lemma {:induction false} FoldAgain(c: Config, parts: Parts)
    requires Direct(c) && Canonical(c, parts)
    ensures Fold(c, Success(START), AllAgain(parts)) == Success(StateOf(c, parts))
  {
    hide Step, Fits, Direct, Again, Grown, Fold, StateOf, Canonical;
    if parts == [] {
      FoldNothing(c);
    } else {
      var init, p := parts[..|parts| - 1], parts[|parts| - 1];
      assert parts == init + [p];
      StateOfOne(c, init, p);
      FoldAgain(c, init);
      StateParts(c, init);
      GrownParts(c, StateOf(c, init), p);
      StepAgain(c, StateOf(c, init), p);
      FoldOne(c, Success(START), AllAgain(init), Again(p));
    }
  }

  lemma FoldNothing(c: Config)
    ensures Fold(c, Success(START), AllAgain([])) == Success(StateOf(c, []))
  {}

  lemma FoldOne(c: Config, start: Result<State, PartsError>, raw: seq<RawPart>, last: RawPart)
    ensures Fold(c, start, raw + [last])
         == match Fold(c, start, raw) case Failure(e) => Failure(e) case Success(s) => Step(c, s, last)
  {
    hide Step;
    assert (raw + [last])[..|raw|] == raw;
  }

  /** Two configurations that differ only in the raw indexes see the same canonical parts. */
  lemma {:induction false} SameCanonical(c: Config, d: Config, parts: Parts)
    requires d == c.(index := d.index)
    ensures StateOf(d, parts) == StateOf(c, parts) && (Canonical(d, parts) <==> Canonical(c, parts))
  {
    hide Valid, Trim;
    if parts != [] {
      SameCanonical(c, d, parts[..|parts| - 1]);
    }
  }

  lemma SameFinish(c: Config, d: Config, s: State)
    requires d == c.(index := d.index)
    ensures Finished(d, s) == Finished(c, s)
  {
    hide Valid;
  }

  lemma DirectOnCanonical(f: Format, skillIDs: seq<string>, raw: Resources)
    requires CanonicalResources(f, raw).Success?
    ensures var rs := CanonicalResources(f, raw).value; Direct(Configured(f, skillIDs, rs, rs))
  {
    hide CanonicalResources, CanonicalIndex, NormalResource, Selected, Selects, Ascending;
    CanonicalMeaning(f, raw);
    var rs := CanonicalResources(f, raw).value;
    forall k | 0 <= k < |rs|
      ensures CanonicalIndex(f, rs, rs[k]) == Some(k)
    {
      assert rs[k] in rs;
      IndexOfCanonical(f, rs, k);
    }
  }

  /** Normalising is idempotent: a canonical turn, sent in again, is the same turn. */
  lemma NormalizedIdempotent(f: Format, raw: seq<RawPart>, skillIDs: seq<string>, resources: Resources)
    requires Sound(f) && Normalized(f, raw, skillIDs, resources).Success?
    ensures var t := Normalized(f, raw, skillIDs, resources).value;
            Normalized(f, AllAgain(t.parts), skillIDs, t.resources) == Success(t)
  {
    hide CanonicalResources, Fold, Selected, StateOf, Canonical, Valid, Sound, Finished, Direct, Indexes;
    var t := Normalized(f, raw, skillIDs, resources).value;
    var canonical := CanonicalResources(f, resources).value;
    var c, d := Configured(f, skillIDs, resources, canonical), Configured(f, skillIDs, canonical, canonical);
    var s := Fold(c, Success(START), raw).value;
    FinishedParts(c, s);
    CanonicalAgain(f, resources);
    FoldFaithful(c, raw);
    FaithfulLimits(c, s);
    DirectOnCanonical(f, skillIDs, resources);
    SameCanonical(c, d, s.parts);
    FoldAgain(d, s.parts);
    SameFinish(c, d, s);
  }

  lemma FinishedParts(c: Config, s: State)
    requires Finished(c, s).Success?
    ensures Finished(c, s).value == Turn(s.parts, c.resources, s.derived)
  {
    hide Valid;
  }

  lemma CanonicalAgain(f: Format, raw: Resources)
    requires CanonicalResources(f, raw).Success?
    ensures CanonicalResources(f, CanonicalResources(f, raw).value) == Success(CanonicalResources(f, raw).value)
  {
    hide CanonicalResources, NormalResource, Selects, Ascending;
    CanonicalMeaning(f, raw);
  }

  // ---------------------------------------------------------------- how text is split does not matter

  lemma {:induction false} FoldConcat(c: Config, start: Result<State, PartsError>, a: seq<RawPart>, b: seq<RawPart>)
    ensures Fold(c, start, a + b) == Fold(c, Fold(c, start, a), b)
    decreases |b|
  {
    hide Step;
    if b == [] {
      assert a + b == a;
    } else {
      assert a + b == a + b[..|b| - 1] + [b[|b| - 1]];
      FoldConcat(c, start, a, b[..|b| - 1]);
      FoldOne(c, start, a + b[..|b| - 1], b[|b| - 1]);
    }
  }

  /** Two texts in a row are taken like the one text they make. */
  lemma TwoTexts(s: State, x: Bytes, y: Bytes)
    requires Valid(x) && Valid(y) && |s.parts| <= MAX_PARTS && |s.derived| <= MAX_DERIVED
    ensures TextStep(s, x).Failure? ==> TextStep(s, x + y) == TextStep(s, x)
    ensures TextStep(s, x).Success? ==> TextStep(s, x + y) == TextStep(TextStep(s, x).value, y)
  {
    hide Valid;
    ValidConcat(x, y);
    if x == [] {
      assert x + y == y;
    } else if y == [] {
      assert x + y == x;
    } else {
      Seqs.Assoc(s.derived, x, y);
      AddTwice(s.parts, x, y);
    }
  }

  lemma AddTwice(parts: Parts, x: Bytes, y: Bytes)
    ensures AddText(AddText(parts, x), y) == AddText(parts, x + y)
    ensures |AddText(parts, x)| == |AddText(parts, x + y)|
  {
    if EndsInText(parts) {
      Seqs.Assoc(parts[|parts| - 1].text, x, y);
    }
  }

  function Texts(pieces: seq<Bytes>): (raw: seq<RawPart>)
    ensures |raw| == |pieces|
  {
    if pieces == [] then [] else Texts(pieces[..|pieces| - 1]) + [RawText(pieces[|pieces| - 1], false)]
  }

  lemma FlattenLast(pieces: seq<Bytes>)
    requires pieces != []
    ensures Seqs.Flatten(pieces) == Seqs.Flatten(pieces[..|pieces| - 1]) + pieces[|pieces| - 1]
  {
    var init, last := pieces[..|pieces| - 1], pieces[|pieces| - 1];
    assert pieces == init + [last];
    Seqs.FlattenAppend(init, [last]);
    var one: seq<Bytes> := [last];
    assert one[1..] == [] && Seqs.Flatten(one) == last + Seqs.Flatten(one[1..]);
  }

  lemma {:induction false} PiecesValid(pieces: seq<Bytes>)
    requires forall i :: 0 <= i < |pieces| ==> Valid(pieces[i])
    ensures Valid(Seqs.Flatten(pieces))
  {
    if pieces != [] {
      PiecesValid(pieces[..|pieces| - 1]);
      FlattenLast(pieces);
      ValidConcat(Seqs.Flatten(pieces[..|pieces| - 1]), pieces[|pieces| - 1]);
    }
  }

  lemma TextIsStep(c: Config, s: State, text: Bytes)
    ensures Step(c, s, RawText(text, false)) == TextStep(s, text)
  {
    hide TextStep;
  }

  lemma {:induction false} PiecesAsOne(c: Config, s: State, pieces: seq<Bytes>)
    requires forall i :: 0 <= i < |pieces| ==> Valid(pieces[i])
    requires |s.parts| <= MAX_PARTS && |s.derived| <= MAX_DERIVED
    ensures Fold(c, Success(s), Texts(pieces)) == TextStep(s, Seqs.Flatten(pieces))
    decreases |pieces|
  {
    hide Valid, Step, TextStep, Fold;
    if pieces == [] {
      NoPieces(c, s);
    } else {
      var init, last := pieces[..|pieces| - 1], pieces[|pieces| - 1];
      PiecesAsOne(c, s, init);
      FoldOne(c, Success(s), Texts(init), RawText(last, false));
      FlattenLast(pieces);
      PiecesValid(init);
      TwoTexts(s, Seqs.Flatten(init), last);
      var before := TextStep(s, Seqs.Flatten(init));
      if before.Success? {
        TextIsStep(c, before.value, last);
      }
    }
  }

  lemma NoPieces(c: Config, s: State)
    ensures Fold(c, Success(s), Texts([])) == TextStep(s, Seqs.Flatten([]))
  {}

  /**
    Splitting a text between runes, or joining texts, gives the same turn or the same
    error, as long as the raw list stays within the limit on its length.
   */
  lemma SplitInvisible(
    f: Format, a: seq<RawPart>, pieces: seq<Bytes>, b: seq<RawPart>, skillIDs: seq<string>, resources: Resources)
    requires Sound(f) && forall i :: 0 <= i < |pieces| ==> Valid(pieces[i])
    requires |a| + |pieces| + |b| <= MAX_PARTS && |a| + 1 + |b| <= MAX_PARTS
    ensures Normalized(f, a + Texts(pieces) + b, skillIDs, resources)
         == Normalized(f, a + [RawText(Seqs.Flatten(pieces), false)] + b, skillIDs, resources)
  {
    hide CanonicalResources, Fold, Step, Configured, Valid, Sound, Finished, Faithful;
    if CanonicalResources(f, resources).Success? {
      var c := Configured(f, skillIDs, resources, CanonicalResources(f, resources).value);
      ConfiguredFields(f, skillIDs, resources, CanonicalResources(f, resources).value);
      var whole := RawText(Seqs.Flatten(pieces), false);
      var before := Fold(c, Success(START), a);
      FoldConcat(c, Success(START), a, Texts(pieces));
      FoldOne(c, Success(START), a, whole);
      FoldConcat(c, Success(START), a + Texts(pieces), b);
      FoldConcat(c, Success(START), a + [whole], b);
      match before
      case Failure(e) => FailureStays(c, e, Texts(pieces));
      case Success(s) =>
        FoldFaithful(c, a);
        FaithfulLimits(c, s);
        PiecesAsOne(c, s, pieces);
        TextIsStep(c, s, Seqs.Flatten(pieces));
    }
  }

  lemma {:induction false} FailureStays(c: Config, e: PartsError, raw: seq<RawPart>)
    ensures Fold(c, Failure(e), raw) == Failure(e)
  {
    hide Step;
    if raw != [] {
      FailureStays(c, e, raw[..|raw| - 1]);
    }
  }

  // ---------------------------------------------------------------- how resources are listed does not matter

  /** Both invalid, or valid with the same key. */
  predicate SameKey(f: Format, r: Resource, other: Resource)
  {
    match NormalResource(f, r)
    case None => NormalResource(f, other).None?
    case Some(x) => NormalResource(f, other).Some? && f.key(x) == f.key(NormalResource(f, other).value)
  }

  /** `at` leads each resource of `a` to one of `b` with the same key, and `b` holds no others. */
  ghost predicate Relisted(f: Format, a: Resources, b: Resources, at: seq<int>)
  {
    && |at| == |a|
    && (forall i :: 0 <= i < |a| ==> 0 <= at[i] < |b| && SameKey(f, b[at[i]], a[i]))
    && (forall j :: 0 <= j < |b| ==> Listed(f, a, b[j]))
  }

  ghost predicate Listed(f: Format, a: Resources, r: Resource)
  {
    exists i :: 0 <= i < |a| && SameKey(f, a[i], r)
  }

  /** The same part, pointing into the other list; an index out of range stays out of range. */
  function Remapped(raw: RawPart, at: seq<int>): RawPart
  {
    match raw
    case RawResource(Some(i), stray) => RawResource(Some(if 0 <= i < |at| then at[i] else -1), stray)
    case _ => raw
  }

  function AllRemapped(raw: seq<RawPart>, at: seq<int>): (r: seq<RawPart>)
    ensures |r| == |raw|
  {
    if raw == [] then [] else AllRemapped(raw[..|raw| - 1], at) + [Remapped(raw[|raw| - 1], at)]
  }

  lemma KeyedAlike(f: Format, r: Resource, other: Resource, key: string)
    requires SameKey(f, r, other)
    ensures Keyed(f, r, key) <==> Keyed(f, other, key)
    ensures NormalResource(f, r).Some? <==> NormalResource(f, other).Some?
  {
    hide NormalResource;
  }

  lemma RelistedKeys(f: Format, a: Resources, b: Resources, at: seq<int>, key: string)
    requires Relisted(f, a, b, at)
    ensures HasRawKey(f, a, key) <==> HasRawKey(f, b, key)
  {
    hide Keyed, SameKey;
    if HasRawKey(f, a, key) {
      var i :| 0 <= i < |a| && Keyed(f, a[i], key);
      KeyedAlike(f, b[at[i]], a[i], key);
    }
    if HasRawKey(f, b, key) {
      var j :| 0 <= j < |b| && Keyed(f, b[j], key);
      assert Listed(f, a, b[j]);
      var i :| 0 <= i < |a| && SameKey(f, a[i], b[j]);
      KeyedAlike(f, a[i], b[j], key);
    }
  }

  lemma RelistedValid(f: Format, a: Resources, b: Resources, at: seq<int>)
    requires Relisted(f, a, b, at)
    ensures AllValid(f, a) <==> AllValid(f, b)
  {
    hide NormalResource, SameKey;
    if AllValid(f, a) {
      forall j | 0 <= j < |b|
        ensures NormalResource(f, b[j]).Some?
      {
        assert Listed(f, a, b[j]);
        var i :| 0 <= i < |a| && SameKey(f, a[i], b[j]);
        KeyedAlike(f, a[i], b[j], "");
      }
    }
    if AllValid(f, b) {
      forall i | 0 <= i < |a|
        ensures NormalResource(f, a[i]).Some?
      {
        KeyedAlike(f, b[at[i]], a[i], "");
      }
    }
  }

  /** The two configurations differ in their raw indexes alone, and `at` leads between them. */
  ghost predicate Leads(c: Config, d: Config, at: seq<int>)
  {
    && d == c.(index := d.index) && |at| == |c.index|
    && forall i :: 0 <= i < |at| ==> 0 <= at[i] < |d.index| && d.index[at[i]] == c.index[i]
  }

  lemma StepRemapped(c: Config, d: Config, s: State, raw: RawPart, at: seq<int>)
    requires Leads(c, d, at)
    ensures Step(d, s, Remapped(raw, at)) == Step(c, s, raw)
  {
    hide TextStep, SkillStep, AnnotationStep, AttachmentStep, Checked;
    match raw {
      case RawResource(index, stray) =>
        if index.Some? {
          assert Remapped(raw, at).RawResource?;
        }
      case RawSkill(skillID, _) => SameSkillStep(c, d, s, skillID);
      case RawAnnotation(annotation, _) => SameAnnotationStep(c, d, s, annotation);
      case RawAttachment(receipt, _) => SameAttachmentStep(c, d, s, receipt);
      case RawText(_, _) =>
      case RawUnknown(_) =>
    }
  }

  lemma SameSkillStep(c: Config, d: Config, s: State, skillID: string)
    requires d == c.(index := d.index)
    ensures SkillStep(d, s, skillID) == SkillStep(c, s, skillID)
  {
    hide Checked;
  }

  lemma SameAnnotationStep(c: Config, d: Config, s: State, annotation: Option<Annotation>)
    requires d == c.(index := d.index)
    ensures AnnotationStep(d, s, annotation) == AnnotationStep(c, s, annotation)
  {
    hide Checked;
  }

  lemma SameAttachmentStep(c: Config, d: Config, s: State, receipt: Option<Chat.Receipt>)
    requires d == c.(index := d.index)
    ensures AttachmentStep(d, s, receipt) == AttachmentStep(c, s, receipt)
  {
    hide Checked;
  }

  lemma {:induction false} FoldRemapped(c: Config, d: Config, raw: seq<RawPart>, at: seq<int>)
    requires Leads(c, d, at)
    ensures Fold(d, Success(START), AllRemapped(raw, at)) == Fold(c, Success(START), raw)
  {
    hide Step, Remapped, Leads;
    if raw != [] {
      var init, last := raw[..|raw| - 1], raw[|raw| - 1];
      FoldRemapped(c, d, init, at);
      FoldOne(d, Success(START), AllRemapped(init, at), Remapped(last, at));
      var before := Fold(c, Success(START), init);
      if before.Success? {
        StepRemapped(c, d, before.value, last, at);
      }
    }
  }

  lemma SameIndex(f: Format, canonical: Resources, a: Resource, b: Resource)
    requires SameKey(f, b, a)
    ensures CanonicalIndex(f, canonical, a) == CanonicalIndex(f, canonical, b)
  {
    hide NormalResource, Position;
  }

  lemma RelistedLeads(f: Format, skillIDs: seq<string>, a: Resources, b: Resources, at: seq<int>, canonical: Resources)
    requires Relisted(f, a, b, at)
    ensures Leads(Configured(f, skillIDs, a, canonical), Configured(f, skillIDs, b, canonical), at)
  {
    hide CanonicalIndex, NormalResource, Selected, Listed, SameKey;
    forall i | 0 <= i < |at|
      ensures CanonicalIndex(f, canonical, b[at[i]]) == CanonicalIndex(f, canonical, a[i])
    {
      SameIndex(f, canonical, a[i], b[at[i]]);
    }
  }

  lemma LeadsSame(c: Config, d: Config, at: seq<int>)
    requires Leads(c, d, at)
    ensures d == c.(index := d.index)
  {}

  /**
    Permuting or repeating the selected resources, or spelling them differently, with the
    parts pointing to the new places, gives the same turn or the same error if the same
    spelling still comes first for each key; when there is a turn, only then.
   */
  lemma ResourceOrderInvisible(
    f: Format, raw: seq<RawPart>, skillIDs: seq<string>, a: Resources, b: Resources, at: seq<int>)
    requires Relisted(f, a, b, at)
    ensures SameSpelling(f, a, b) ==>
              Normalized(f, AllRemapped(raw, at), skillIDs, b) == Normalized(f, raw, skillIDs, a)
    ensures Normalized(f, raw, skillIDs, a).Success? ==>
              (Normalized(f, AllRemapped(raw, at), skillIDs, b) == Normalized(f, raw, skillIDs, a) <==> SameSpelling(f, a, b))
  {
    hide CanonicalResources, NormalResource, Fold, Configured, Finished, SameSpelling, Relisted, Leads;
    RelistedValid(f, a, b, at);
    if SameSpelling(f, a, b) {
      CanonicalOfSelection(f, a, b);
      if CanonicalResources(f, a).Success? {
        var canonical := CanonicalResources(f, a).value;
        var c, d := Configured(f, skillIDs, a, canonical), Configured(f, skillIDs, b, canonical);
        RelistedLeads(f, skillIDs, a, b, at, canonical);
        LeadsSame(c, d, at);
        FoldRemapped(c, d, raw, at);
        var s := Fold(c, Success(START), raw);
        if s.Success? {
          SameFinish(c, d, s.value);
        }
      }
    } else if Normalized(f, raw, skillIDs, a).Success?
              && Normalized(f, AllRemapped(raw, at), skillIDs, b) == Normalized(f, raw, skillIDs, a) {
      TurnResources(f, raw, skillIDs, a);
      TurnResources(f, AllRemapped(raw, at), skillIDs, b);
      SpellingSeen(f, a, b);
    }
  }

  lemma TurnResources(f: Format, raw: seq<RawPart>, skillIDs: seq<string>, resources: Resources)
    requires Normalized(f, raw, skillIDs, resources).Success?
    ensures CanonicalResources(f, resources) == Success(Normalized(f, raw, skillIDs, resources).value.resources)
    ensures Normalized(f, raw, skillIDs, resources).value.parts
         == Fold(Configured(f, skillIDs, resources, CanonicalResources(f, resources).value), Success(START), raw).value.parts
  {
    hide CanonicalResources, Fold, Configured, Finished;
    var canonical := CanonicalResources(f, resources).value;
    var c := Configured(f, skillIDs, resources, canonical);
    ConfiguredFields(f, skillIDs, resources, canonical);
    FinishedParts(c, Fold(c, Success(START), raw).value);
  }

  lemma SpellingSeen(f: Format, a: Resources, b: Resources)
    requires CanonicalResources(f, a).Success? && CanonicalResources(f, a) == CanonicalResources(f, b)
    ensures SameSpelling(f, a, b)
  {
    hide CanonicalResources, NormalResource, Selects, Ascending;
    CanonicalMeaning(f, a);
    CanonicalMeaning(f, b);
  }

  // ---------------------------------------------------------------- other spellings, same parts

  /** The same keys at the same places. */
  predicate Alike(f: Format, a: Resources, b: Resources)
  {
    |a| == |b| && forall k :: 0 <= k < |a| ==> f.key(a[k]) == f.key(b[k])
  }

  /** The keys of a strictly ascending list are determined by which they are. */
  lemma {:induction false} AscendingAlike(f: Format, a: Resources, b: Resources)
    requires Ascending(f, a) && Ascending(f, b) && forall key :: HasKey(f, a, key) <==> HasKey(f, b, key)
    ensures Alike(f, a, b)
    decreases |a|
  {
    hide Less, Ascending, HasKey;
    if a == [] {
      if b != [] {
        LastKey(f, b);
        NoKey(f, f.key(b[|b| - 1]));
      }
    } else {
      LastKey(f, a);
      if b == [] {
        NoKey(f, f.key(a[|a| - 1]));
      }
      SameLastKey(f, a, b);
      InitAscends(f, a);
      InitAscends(f, b);
      var x, y := a[..|a| - 1], b[..|b| - 1];
      forall key
        ensures HasKey(f, x, key) <==> HasKey(f, y, key)
      {
        KeyOfInit(f, a, key);
        KeyOfInit(f, b, key);
      }
      AscendingAlike(f, x, y);
    }
  }

  lemma NoKey(f: Format, key: string)
    ensures !HasKey(f, [], key)
  {}

  lemma LastKey(f: Format, rs: Resources)
    requires rs != []
    ensures HasKey(f, rs, f.key(rs[|rs| - 1]))
  {}

  lemma SameLastKey(f: Format, a: Resources, b: Resources)
    requires Ascending(f, a) && Ascending(f, b) && a != [] && b != []
    requires forall key :: HasKey(f, a, key) <==> HasKey(f, b, key)
    ensures f.key(a[|a| - 1]) == f.key(b[|b| - 1])
  {
    hide Less;
    LastKey(f, a);
    LastKey(f, b);
    var k :| 0 <= k < |b| && f.key(b[k]) == f.key(a[|a| - 1]);
    var l :| 0 <= l < |a| && f.key(a[l]) == f.key(b[|b| - 1]);
    LessTotal(f.key(a[|a| - 1]), f.key(b[|b| - 1]));
  }

  lemma KeyOfInit(f: Format, rs: Resources, key: string)
    requires Ascending(f, rs) && rs != []
    ensures HasKey(f, rs[..|rs| - 1], key) <==> HasKey(f, rs, key) && key != f.key(rs[|rs| - 1])
  {
    hide Less;
    var init, last := rs[..|rs| - 1], rs[|rs| - 1];
    assert rs == init + [last];
    HasKeyAppend(f, init, last);
    if HasKey(f, init, f.key(last)) {
      var i :| 0 <= i < |init| && f.key(init[i]) == f.key(last);
      assert Less(f.key(rs[i]), f.key(rs[|rs| - 1]));
      LessTotal(f.key(last), f.key(last));
    }
  }

  /** Relisting leaves the keys of the canonical resources where they are. */
  lemma CanonicalAlike(f: Format, a: Resources, b: Resources, at: seq<int>)
    requires Relisted(f, a, b, at) && CanonicalResources(f, a).Success? && CanonicalResources(f, b).Success?
    ensures Alike(f, CanonicalResources(f, a).value, CanonicalResources(f, b).value)
  {
    hide CanonicalResources, NormalResource, Selects, Ascending, HasKey, HasRawKey, Relisted;
    CanonicalMeaning(f, a);
    CanonicalMeaning(f, b);
    CanonicalKeys(f, a);
    CanonicalKeys(f, b);
    forall key
      ensures HasRawKey(f, a, key) <==> HasRawKey(f, b, key)
    {
      RelistedKeys(f, a, b, at, key);
    }
    AscendingAlike(f, CanonicalResources(f, a).value, CanonicalResources(f, b).value);
  }

  lemma {:induction false} PositionAlike(f: Format, a: Resources, b: Resources, key: string)
    requires Alike(f, a, b)
    ensures Position(f, a, key) == Position(f, b, key)
    decreases |a|
  {
    if a != [] {
      PositionAlike(f, a[..|a| - 1], b[..|b| - 1], key);
    }
  }

  /** The raw indexes of two configurations lead to the same places, in lists of the same length. */
  ghost predicate LeadsAlike(c: Config, d: Config, at: seq<int>)
  {
    && d.f == c.f && d.skills == c.skills && |d.resources| == |c.resources| && |at| == |c.index|
    && forall i :: 0 <= i < |at| ==> 0 <= at[i] < |d.index| && d.index[at[i]] == c.index[i]
  }

  lemma RelistedLeadsAlike(
    f: Format, skillIDs: seq<string>, a: Resources, b: Resources, at: seq<int>, x: Resources, y: Resources)
    requires Relisted(f, a, b, at) && Alike(f, x, y)
    ensures LeadsAlike(Configured(f, skillIDs, a, x), Configured(f, skillIDs, b, y), at)
  {
    hide NormalResource, Selected, Listed, SameKey, Position;
    forall i | 0 <= i < |at|
      ensures CanonicalIndex(f, y, b[at[i]]) == CanonicalIndex(f, x, a[i])
    {
      SameIndex(f, y, a[i], b[at[i]]);
      if NormalResource(f, a[i]).Some? {
        PositionAlike(f, x, y, f.key(NormalResource(f, a[i]).value));
      }
    }
  }

  /** The states agree on everything but the derived text. */
  predicate SameParts(s: State, t: State) { t == s.(derived := t.derived) }

  lemma StepAlike(c: Config, d: Config, s: State, t: State, raw: RawPart, at: seq<int>)
    requires LeadsAlike(c, d, at) && SameParts(s, t)
    requires Step(c, s, raw).Success? && Step(d, t, Remapped(raw, at)).Success?
    ensures SameParts(Step(c, s, raw).value, Step(d, t, Remapped(raw, at)).value)
  {
    hide Valid, Trim;
    match raw {
      case RawResource(index, _) =>
        if index.Some? {
          assert Remapped(raw, at).RawResource?;
        }
      case RawSkill(_, _) =>
      case RawAnnotation(_, _) =>
      case RawAttachment(_, _) =>
      case RawText(_, _) =>
      case RawUnknown(_) =>
    }
  }

  lemma {:induction false} FoldAlike(c: Config, d: Config, raw: seq<RawPart>, at: seq<int>)
    requires LeadsAlike(c, d, at)
    requires Fold(c, Success(START), raw).Success? && Fold(d, Success(START), AllRemapped(raw, at)).Success?
    ensures SameParts(Fold(c, Success(START), raw).value, Fold(d, Success(START), AllRemapped(raw, at)).value)
  {
    hide Step, Remapped, LeadsAlike, SameParts;
    if raw == [] {
      SameStart();
    } else {
      var init, last := raw[..|raw| - 1], raw[|raw| - 1];
      FoldOne(d, Success(START), AllRemapped(init, at), Remapped(last, at));
      FoldAlike(c, d, init, at);
      StepAlike(c, d, Fold(c, Success(START), init).value, Fold(d, Success(START), AllRemapped(init, at)).value, last, at);
    }
  }

  lemma SameStart()
    ensures SameParts(START, START)
  {}

  /** Turns over the same keys have the same parts, whatever spelling comes first. */
  lemma SpellingsShareParts(
    f: Format, raw: seq<RawPart>, skillIDs: seq<string>, a: Resources, b: Resources, at: seq<int>)
    requires Relisted(f, a, b, at)
    requires Normalized(f, raw, skillIDs, a).Success? && Normalized(f, AllRemapped(raw, at), skillIDs, b).Success?
    ensures var t, u := Normalized(f, raw, skillIDs, a).value, Normalized(f, AllRemapped(raw, at), skillIDs, b).value;
            t.parts == u.parts && Alike(f, t.resources, u.resources)
  {
    hide CanonicalResources, Fold, Configured, Finished, Relisted, LeadsAlike, Alike;
    TurnResources(f, raw, skillIDs, a);
    TurnResources(f, AllRemapped(raw, at), skillIDs, b);
    CanonicalAlike(f, a, b, at);
    var x, y := CanonicalResources(f, a).value, CanonicalResources(f, b).value;
    RelistedLeadsAlike(f, skillIDs, a, b, at, x, y);
    FoldAlike(Configured(f, skillIDs, a, x), Configured(f, skillIDs, b, y), raw, at);
  }

  /** Two spellings of one key: the one listed first is kept. */
  lemma SpellingMatters(f: Format, x: Resource, y: Resource)
    requires NormalResource(f, x) == Some(x) && NormalResource(f, y) == Some(y) && f.key(x) == f.key(y) && x != y
    ensures Relisted(f, [x, y], [y, x], [1, 0])
    ensures CanonicalResources(f, [x, y]) == Success([x]) && CanonicalResources(f, [y, x]) == Success([y])
  {
    hide NormalResource;
    var a, b := [x, y], [y, x];
    assert Listed(f, a, b[0]) && Listed(f, a, b[1]) by {
      assert SameKey(f, a[0], x) && SameKey(f, a[1], y);
    }
    FirstKept(f, x, y);
    FirstKept(f, y, x);
  }

  lemma FirstKept(f: Format, x: Resource, y: Resource)
    requires NormalResource(f, x) == Some(x) && NormalResource(f, y) == Some(y) && f.key(x) == f.key(y)
    ensures CanonicalResources(f, [x, y]) == Success([x])
  {
    hide NormalResource;
    assert [x, y][..1] == [x] && [x][..0] == [];
    assert Deduped(f, []) == Some([]);
    assert Deduped(f, [x]) == Some([] + [x]);
    assert [] + [x] == [x] && f.key([x][0]) == f.key(y);
    assert Deduped(f, [x, y]) == Some([x]);
    assert Sort(f, [x]) == [] + [x];
  }

  /** A resource part leads to the resource that was listed first under the key of the one it was given. */
  lemma ResourcePartsKeepTheirResource(f: Format, skillIDs: seq<string>, resources: Resources, s: State, i: nat)
    requires CanonicalResources(f, resources).Success? && i < |resources|
    requires var c := Configured(f, skillIDs, resources, CanonicalResources(f, resources).value);
             Step(c, s, RawResource(Some(i), false)).Success?
    ensures var c := Configured(f, skillIDs, resources, CanonicalResources(f, resources).value);
            var t := Step(c, s, RawResource(Some(i), false)).value;
            && t.parts != [] && t.parts[|t.parts| - 1].ResourcePart?
            && 0 <= t.parts[|t.parts| - 1].index < |c.resources|
            && var found := c.resources[t.parts[|t.parts| - 1].index];
               && SameKey(f, found, resources[i]) && Selects(f, resources, found)
               && (forall x :: NormalResource(f, resources[i]) == Some(x) && Selects(f, resources, x) ==> found == x)
  {
    hide CanonicalResources, CanonicalIndex, NormalResource, Selected, Selects, Ascending;
    IndexOfSelected(f, resources, i);
    CanonicalMeaning(f, resources);
    var rs := CanonicalResources(f, resources).value;
    assert rs[CanonicalIndex(f, rs, resources[i]).value] in rs;
  }
}
