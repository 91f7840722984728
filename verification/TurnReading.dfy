/**
  The canonical content of a turn on the fields of what was sent: which parts and resources
  are taken, what each becomes, and what the whole is.
 */
module TurnReading {
  import opened Wrappers
  import opened Text
  import opened Utf8Range
  import Chat
  import Sets
  import opened ContentParts

  // ---------------------------------------------------------------- resources

  /** The strings first differ at `k`, where `a` ends or has the smaller character. */
  predicate PrecedesAt(a: string, b: string, k: int)
  {
    0 <= k < |b| && k <= |a| && a[..k] == b[..k] && (k == |a| || a[k] < b[k])
  }

  /** The order of keys: the first difference decides, and a prefix comes first. */
  predicate Precedes(a: string, b: string)
  {
    exists k :: 0 <= k < |b| && PrecedesAt(a, b, k)
  }

  lemma {:induction false} LessIs(a: string, b: string)
    ensures Less(a, b) <==> Precedes(a, b)
  {
    if a == "" || b == "" {
      if b != "" {
        assert PrecedesAt(a, b, 0);
      }
    } else if a[0] == b[0] {
      LessIs(a[1..], b[1..]);
      if k :| PrecedesAt(a[1..], b[1..], k) {
        assert a[..k + 1] == [a[0]] + a[1..][..k] && b[..k + 1] == [b[0]] + b[1..][..k];
        assert PrecedesAt(a, b, k + 1);
      }
      if k :| PrecedesAt(a, b, k) {
        assert k > 0;
        assert a[1..][..k - 1] == a[..k][1..] && b[1..][..k - 1] == b[..k][1..];
        assert PrecedesAt(a[1..], b[1..], k - 1);
      }
    } else {
      if a[0] < b[0] {
        assert PrecedesAt(a, b, 0);
      }
      if k :| PrecedesAt(a, b, k) {
        if k > 0 {
          SameHeads(a, b, k);
          assert false;
        }
      }
    }
  }

  lemma SameHeads(a: string, b: string, k: int)
    requires PrecedesAt(a, b, k) && k > 0
    ensures a[0] == b[0]
  {
    assert a[..k][0] == b[..k][0];
  }

  /** `t` is the reference in the trimmed fields of `r`; it is valid and has a provider and a key. */
  predicate Spells(f: Format, r: Resource, t: Resource)
  {
    && t.provider == Trim(r.provider) && t.apiVersion == Trim(r.apiVersion) && t.kind == Trim(r.kind)
    && t.resource == Trim(r.resource) && t.name == Trim(r.name)
    && t.provider != "" && f.refValid(t) && f.key(t) != ""
  }

  lemma SpellsIs(f: Format, r: Resource, t: Resource)
    ensures NormalResource(f, r) == Some(t) <==> Spells(f, r, t)
  {
    hide Trim;
  }

  /** Entry `i` of the list spells `t`, and no entry in front spells a resource with its key. */
  ghost predicate FirstSpelled(f: Format, raw: Resources, i: int, t: Resource)
  {
    && 0 <= i < |raw| && Spells(f, raw[i], t)
    && forall j, u :: 0 <= j < i && Spells(f, raw[j], u) ==> f.key(u) != f.key(t)
  }

  ghost predicate SpelledFirst(f: Format, raw: Resources, t: Resource)
  {
    exists i :: FirstSpelled(f, raw, i, t)
  }

  ghost predicate Spelled(f: Format, r: Resource) { exists t :: Spells(f, r, t) }

  ghost predicate AllSpelled(f: Format, raw: Resources)
  {
    forall i :: 0 <= i < |raw| ==> Spelled(f, raw[i])
  }

  /** The first spelling of each key, in the order of the keys. */
  ghost predicate Listed(f: Format, raw: Resources, rs: Resources)
  {
    && (forall t :: t in rs <==> SpelledFirst(f, raw, t))
    && forall i, j :: 0 <= i < j < |rs| ==> Precedes(f.key(rs[i]), f.key(rs[j]))
  }

  lemma SelectsIs(f: Format, raw: Resources, t: Resource)
    ensures Selects(f, raw, t) <==> SpelledFirst(f, raw, t)
  {
    hide Spells, NormalResource, HasRawKey;
    forall i | 0 <= i < |raw|
      ensures NormalResource(f, raw[i]) == Some(t) && !HasRawKey(f, raw[..i], f.key(t)) <==> FirstSpelled(f, raw, i, t)
    {
      SpellsIs(f, raw[i], t);
      KeyedIs(f, raw, i, f.key(t));
    }
  }

  lemma KeyedIs(f: Format, raw: Resources, i: nat, key: string)
    requires i <= |raw|
    ensures HasRawKey(f, raw[..i], key) <==> exists j, u :: 0 <= j < i && Spells(f, raw[j], u) && f.key(u) == key
  {
    hide Spells, NormalResource;
    if j, u :| 0 <= j < i && Spells(f, raw[j], u) && f.key(u) == key {
      SpellsIs(f, raw[j], u);
      assert Keyed(f, raw[..i][j], key);
    }
    if j :| 0 <= j < i && Keyed(f, raw[..i][j], key) {
      SpellsIs(f, raw[j], NormalResource(f, raw[j]).value);
    }
  }

  /**
    The resources of a turn are taken if and only if every one can be spelled and at most
    eight keys are left; they are then the first spelling of each key, in the order of the keys.
   */
  lemma ResourcesByFields(f: Format, raw: Resources)
    ensures CanonicalResources(f, raw).Success? ==> AllSpelled(f, raw) && Listed(f, raw, CanonicalResources(f, raw).value)
    ensures CanonicalResources(f, raw).Success? ==> |CanonicalResources(f, raw).value| <= 8
    ensures CanonicalResources(f, raw).Failure? && AllSpelled(f, raw) ==>
              exists rs: Resources :: Listed(f, raw, rs) && |rs| > 8
  {
    hide NormalResource, KeepsFirsts, AllSpelled, Listed;
    SpelledIs(f, raw);
    DedupedMeaning(f, raw);
    if Deduped(f, raw).Some? {
      SortedIsListed(f, raw, Deduped(f, raw).value);
    }
  }

  lemma SpelledIs(f: Format, raw: Resources)
    ensures AllSpelled(f, raw) <==> forall i :: 0 <= i < |raw| ==> NormalResource(f, raw[i]).Some?
  {
    hide NormalResource, Spells;
    forall i | 0 <= i < |raw|
      ensures NormalResource(f, raw[i]).Some? <==> Spelled(f, raw[i])
    {
      if NormalResource(f, raw[i]).Some? {
        SpellsIs(f, raw[i], NormalResource(f, raw[i]).value);
      }
      if t :| Spells(f, raw[i], t) {
        SpellsIs(f, raw[i], t);
      }
    }
  }

  lemma SortedIsListed(f: Format, raw: Resources, rs: Resources)
    requires KeepsFirsts(f, raw, rs)
    ensures Listed(f, raw, Sort(f, rs)) && |Sort(f, rs)| == |rs|
  {
    hide NormalResource, Selects, SpelledFirst, Less, Precedes, Sort;
    SortSorts(f, rs);
    var sorted := Sort(f, rs);
    forall t
      ensures t in sorted <==> SpelledFirst(f, raw, t)
    {
      SelectsIs(f, raw, t);
    }
    forall i, j | 0 <= i < j < |sorted|
      ensures Precedes(f.key(sorted[i]), f.key(sorted[j]))
    {
      LessIs(f.key(sorted[i]), f.key(sorted[j]));
    }
  }

  // ---------------------------------------------------------------- one part

  /** What a raw part yields by itself, whatever stands in front of it. */
  predicate Yields(c: Config, raw: RawPart, p: Part)
  {
    !raw.stray &&
    match raw
    case RawText(text, _) => p == TextPart(text) && Valid(text)
    case RawSkill(id, _) => p == SkillPart(Trim(id)) && Trim(id) != "" && c.f.skillValid(Trim(id)) && Trim(id) in c.skills
    case RawResource(index, _) =>
      && p.ResourcePart? && 0 <= p.index < |c.resources|
      && index.Some? && 0 <= index.value < |c.index| && c.index[index.value] == Some(p.index)
    case RawAnnotation(given, _) => p.AnnotationPart? && given.Some? && c.f.annotation(given.value) == Some(p.annotation)
    case RawAttachment(given, _) => p.AttachmentPart? && given.Some? && c.f.receipt(given.value) == Some(p.receipt)
    case RawUnknown(_) => false
  }

  /** How many attachments there are among the pieces, and how large they are together. */
  function Attached(pieces: Parts): nat
  {
    if pieces == [] then 0 else Attached(pieces[..|pieces| - 1]) + (if pieces[|pieces| - 1].AttachmentPart? then 1 else 0)
  }

  function AttachedBytes(pieces: Parts): int
  {
    if pieces == [] then 0
    else
      var p := pieces[|pieces| - 1];
      AttachedBytes(pieces[..|pieces| - 1]) + (if p.AttachmentPart? then p.receipt.sizeBytes else 0)
  }

  predicate HasAnnotation(pieces: Parts, id: string)
  {
    exists j :: 0 <= j < |pieces| && pieces[j].AnnotationPart? && pieces[j].annotation.id == id
  }

  predicate HasAttachment(pieces: Parts, id: string)
  {
    exists j :: 0 <= j < |pieces| && pieces[j].AttachmentPart? && pieces[j].receipt.id == id
  }

  /** The bytes the pieces contribute to the prompt, in order. */
  function Shown(c: Config, pieces: Parts): Bytes
  {
    if pieces == [] then [] else Shown(c, pieces[..|pieces| - 1]) + ShownOne(c, pieces[|pieces| - 1])
  }

  function ShownOne(c: Config, p: Part): Bytes
  {
    if p.TextPart? then p.text
    else if p.SkillPart? then c.f.skillText(p.skillID)
    else if p.AnnotationPart? then c.f.annotationText(p.annotation)
    else if p.AttachmentPart? then c.f.receiptText(p.receipt)
    else if 0 <= p.index < |c.resources| then c.f.resourceText(c.resources[p.index])
    else []
  }

  /** The pieces in front leave room for `p`: no repeated ID, and everything within its limit. */
  predicate Admits(c: Config, pieces: Parts, p: Part)
  {
    && (p.AnnotationPart? ==> !HasAnnotation(pieces, p.annotation.id))
    && (p.AttachmentPart? ==>
          && !HasAttachment(pieces, p.receipt.id) && Attached(pieces) + 1 <= c.f.maxAttachments
          && AttachedBytes(pieces) + p.receipt.sizeBytes <= c.f.maxAttachmentBytes)
    && |Shown(c, pieces) + ShownOne(c, p)| <= 0x1_0000
  }

  // ---------------------------------------------------------------- parts without their cuts

  /** A byte of text, or any other part as a whole. */
  datatype Token = Char(b: byte) | Whole(p: Part)

  function TokensOf(p: Part): seq<Token>
  {
    if p.TextPart? then seq(|p.text|, (i: nat) requires i < |p.text| => Char(p.text[i])) else [Whole(p)]
  }

  /** The parts with the cuts between texts forgotten. */
  function Tokens(parts: Parts): seq<Token>
  {
    if parts == [] then [] else Tokens(parts[..|parts| - 1]) + TokensOf(parts[|parts| - 1])
  }

  /** No text is empty, and no two stand side by side. */
  predicate Uncut(parts: Parts)
  {
    forall i :: 0 <= i < |parts| && parts[i].TextPart? ==>
      parts[i].text != [] && (i + 1 < |parts| ==> !parts[i + 1].TextPart?)
  }

  lemma TokensSnoc(parts: Parts, p: Part)
    ensures Tokens(parts + [p]) == Tokens(parts) + TokensOf(p)
  {
    assert (parts + [p])[..|parts|] == parts;
  }

  lemma TokensOfTexts(a: Bytes, b: Bytes)
    ensures TokensOf(TextPart(a + b)) == TokensOf(TextPart(a)) + TokensOf(TextPart(b))
  {}

  lemma AddTextTokens(parts: Parts, text: Bytes)
    requires Uncut(parts) && text != []
    ensures Tokens(AddText(parts, text)) == Tokens(parts) + TokensOf(TextPart(text)) && Uncut(AddText(parts, text))
    ensures |AddText(parts, text)| <= |parts| + 1 && AddText(parts, text) != []
  {
    hide Tokens, TokensOf;
    if EndsInText(parts) {
      var init, last := parts[..|parts| - 1], parts[|parts| - 1];
      assert parts == init + [last];
      TokensSnoc(init, last);
      TokensSnoc(init, TextPart(last.text + text));
      TokensOfTexts(last.text, text);
    } else {
      TokensSnoc(parts, TextPart(text));
    }
  }

  lemma AddPartTokens(parts: Parts, p: Part)
    requires Uncut(parts) && !p.TextPart?
    ensures Tokens(parts + [p]) == Tokens(parts) + TokensOf(p) && Uncut(parts + [p])
  {
    TokensSnoc(parts, p);
  }

  // ---------------------------------------------------------------- the fold

  /** The state after these pieces. */
  ghost predicate Tracks(c: Config, pieces: Parts, s: State)
  {
    && Tokens(s.parts) == Tokens(pieces) && Uncut(s.parts) && |s.parts| <= |pieces|
    && (forall id :: id in s.skills <==> SkillPart(id) in pieces)
    && (forall k :: k in s.used <==> ResourcePart(k) in pieces)
    && (forall id :: id in s.annotations <==> HasAnnotation(pieces, id))
    && (forall id :: id in s.attachments <==> HasAttachment(pieces, id))
    && |s.attachments| == Attached(pieces) && s.attachmentBytes == AttachedBytes(pieces)
    && s.derived == Shown(c, pieces) && |s.derived| <= 0x1_0000
  }

  lemma PieceNext(c: Config, pieces: Parts, p: Part)
    ensures forall x :: x in pieces + [p] <==> x in pieces || x == p
    ensures forall id :: HasAnnotation(pieces + [p], id) <==>
              HasAnnotation(pieces, id) || (p.AnnotationPart? && p.annotation.id == id)
    ensures forall id :: HasAttachment(pieces + [p], id) <==>
              HasAttachment(pieces, id) || (p.AttachmentPart? && p.receipt.id == id)
    ensures Attached(pieces + [p]) == Attached(pieces) + (if p.AttachmentPart? then 1 else 0)
    ensures AttachedBytes(pieces + [p]) == AttachedBytes(pieces) + (if p.AttachmentPart? then p.receipt.sizeBytes else 0)
    ensures Shown(c, pieces + [p]) == Shown(c, pieces) + ShownOne(c, p)
    ensures Tokens(pieces + [p]) == Tokens(pieces) + TokensOf(p)
  {
    var all := pieces + [p];
    assert all[..|pieces|] == pieces && all[|pieces|] == p;
    forall id
      ensures HasAnnotation(all, id) <==> HasAnnotation(pieces, id) || (p.AnnotationPart? && p.annotation.id == id)
      ensures HasAttachment(all, id) <==> HasAttachment(pieces, id) || (p.AttachmentPart? && p.receipt.id == id)
    {
      if j :| 0 <= j < |pieces| && pieces[j].AnnotationPart? && pieces[j].annotation.id == id {
        assert all[j] == pieces[j];
      }
      if j :| 0 <= j < |pieces| && pieces[j].AttachmentPart? && pieces[j].receipt.id == id {
        assert all[j] == pieces[j];
      }
    }
  }

  /** Adding a part that is no text, as every branch of the switch does. */
  lemma TracksPart(c: Config, pieces: Parts, s: State, p: Part, next: State)
    requires Tracks(c, pieces, s) && !p.TextPart? && Admits(c, pieces, p)
    requires next == State(
      s.parts + [p],
      if p.SkillPart? then s.skills + {p.skillID} else s.skills,
      if p.ResourcePart? then s.used + {p.index} else s.used,
      if p.AnnotationPart? then s.annotations + {p.annotation.id} else s.annotations,
      if p.AttachmentPart? then s.attachments + {p.receipt.id} else s.attachments,
      if p.AttachmentPart? then s.attachmentBytes + p.receipt.sizeBytes else s.attachmentBytes,
      s.derived + ShownOne(c, p))
    ensures Tracks(c, pieces + [p], next)
  {
    hide Tokens, TokensOf, Shown, ShownOne, HasAnnotation, HasAttachment, Attached, AttachedBytes, Uncut;
    PieceNext(c, pieces, p);
    AddPartTokens(s.parts, p);
    if p.AttachmentPart? {
      Sets.SizeWith(s.attachments, p.receipt.id);
    }
  }

  lemma TracksText(c: Config, pieces: Parts, s: State, text: Bytes)
    requires Tracks(c, pieces, s) && |s.derived + text| <= 0x1_0000
    ensures text != [] ==>
              Tracks(c, pieces + [TextPart(text)], s.(parts := AddText(s.parts, text), derived := s.derived + text))
    ensures text != [] ==> |AddText(s.parts, text)| <= |pieces| + 1
    ensures text == [] ==> Tracks(c, pieces + [TextPart(text)], s)
  {
    hide Tokens, TokensOf, Shown, ShownOne, HasAnnotation, HasAttachment, Attached, AttachedBytes, Uncut, AddText;
    PieceNext(c, pieces, TextPart(text));
    assert ShownOne(c, TextPart(text)) == text by { TextShown(c, text); }
    if text == [] {
      assert TokensOf(TextPart(text)) == [] by { NoTokens(); }
      assert s.derived + text == s.derived;
    } else {
      AddTextTokens(s.parts, text);
    }
  }

  lemma TextShown(c: Config, text: Bytes)
    ensures ShownOne(c, TextPart(text)) == text
  {}

  lemma NoTokens()
    ensures TokensOf(TextPart([])) == []
  {}

  ghost predicate Taken(c: Config, pieces: Parts, raw: RawPart, p: Part)
  {
    Yields(c, raw, p) && Admits(c, pieces, p)
  }

  /** One step is taken exactly when the part yields something that the pieces in front admit. */
  ghost predicate StepsTo(c: Config, pieces: Parts, s: State, raw: RawPart)
  {
    && (Step(c, s, raw).Success? ==> exists p :: Taken(c, pieces, raw, p))
    && forall p :: Taken(c, pieces, raw, p) ==> Step(c, s, raw).Success? && Tracks(c, pieces + [p], Step(c, s, raw).value)
  }

  lemma StepText(c: Config, pieces: Parts, s: State, raw: RawPart)
    requires Tracks(c, pieces, s) && |pieces| < 64 && raw.RawText?
    ensures StepsTo(c, pieces, s, raw)
  {
    hide Tracks, Valid, Shown, Tokens, AddText;
    TracksLimits(c, pieces, s);
    var p := TextPart(raw.text);
    if |s.derived + raw.text| <= 0x1_0000 {
      TracksText(c, pieces, s, raw.text);
      assert Yields(c, raw, p) ==> Taken(c, pieces, raw, p);
    }
    assert raw.text == [] ==> s.derived + raw.text == s.derived;
  }

  lemma TracksLimits(c: Config, pieces: Parts, s: State)
    requires Tracks(c, pieces, s)
    ensures |s.parts| <= |pieces| && s.derived == Shown(c, pieces) && |s.derived| <= 0x1_0000
    ensures s.attachmentBytes == AttachedBytes(pieces) && |s.attachments| == Attached(pieces)
    ensures forall id :: id in s.annotations <==> HasAnnotation(pieces, id)
    ensures forall id :: id in s.attachments <==> HasAttachment(pieces, id)
  {
    hide Tokens, Shown, HasAnnotation, HasAttachment, Attached, AttachedBytes, Uncut;
  }

  lemma StepSkill(c: Config, pieces: Parts, s: State, raw: RawPart)
    requires Tracks(c, pieces, s) && |pieces| < 64 && raw.RawSkill?
    ensures StepsTo(c, pieces, s, raw)
  {
    hide Tracks, Trim, Shown, Tokens;
    TracksLimits(c, pieces, s);
    var p := SkillPart(Trim(raw.skillID));
    assert Step(c, s, raw).Success? ==> Taken(c, pieces, raw, p);
    if Taken(c, pieces, raw, p) {
      TracksPart(c, pieces, s, p, Step(c, s, raw).value);
    }
  }

  lemma StepResource(c: Config, pieces: Parts, s: State, raw: RawPart)
    requires Tracks(c, pieces, s) && |pieces| < 64 && raw.RawResource?
    ensures StepsTo(c, pieces, s, raw)
  {
    hide Tracks, Shown, Tokens;
    TracksLimits(c, pieces, s);
    if raw.index.Some? && 0 <= raw.index.value < |c.index| && c.index[raw.index.value].Some? {
      var p := ResourcePart(c.index[raw.index.value].value);
      assert Step(c, s, raw).Success? ==> Taken(c, pieces, raw, p);
      if Taken(c, pieces, raw, p) {
        TracksPart(c, pieces, s, p, Step(c, s, raw).value);
      }
    }
  }

  lemma StepAnnotation(c: Config, pieces: Parts, s: State, raw: RawPart)
    requires Tracks(c, pieces, s) && |pieces| < 64 && raw.RawAnnotation?
    ensures StepsTo(c, pieces, s, raw)
  {
    hide Tracks, Shown, Tokens, HasAnnotation;
    TracksLimits(c, pieces, s);
    if raw.annotation.Some? && c.f.annotation(raw.annotation.value).Some? {
      var p := AnnotationPart(c.f.annotation(raw.annotation.value).value);
      assert Step(c, s, raw).Success? ==> Taken(c, pieces, raw, p);
      if Taken(c, pieces, raw, p) {
        TracksPart(c, pieces, s, p, Step(c, s, raw).value);
      }
    }
  }

  lemma StepAttachment(c: Config, pieces: Parts, s: State, raw: RawPart)
    requires Tracks(c, pieces, s) && |pieces| < 64 && raw.RawAttachment?
    ensures StepsTo(c, pieces, s, raw)
  {
    hide Tracks, Shown, Tokens, HasAttachment, Attached, AttachedBytes;
    TracksLimits(c, pieces, s);
    if raw.receipt.Some? && c.f.receipt(raw.receipt.value).Some? {
      var p := AttachmentPart(c.f.receipt(raw.receipt.value).value);
      Sets.SizeWith(s.attachments, p.receipt.id);
      assert Step(c, s, raw).Success? ==> Taken(c, pieces, raw, p);
      if Taken(c, pieces, raw, p) {
        TracksPart(c, pieces, s, p, Step(c, s, raw).value);
      }
    }
  }

  lemma StepByFields(c: Config, pieces: Parts, s: State, raw: RawPart)
    requires Tracks(c, pieces, s) && |pieces| < 64
    ensures StepsTo(c, pieces, s, raw)
  {
    hide Tracks;
    match raw
    case RawText(_, _) => StepText(c, pieces, s, raw);
    case RawSkill(_, _) => StepSkill(c, pieces, s, raw);
    case RawResource(_, _) => StepResource(c, pieces, s, raw);
    case RawAnnotation(_, _) => StepAnnotation(c, pieces, s, raw);
    case RawAttachment(_, _) => StepAttachment(c, pieces, s, raw);
    case RawUnknown(_) =>
  }

  /** Every raw part yields its piece, which the pieces in front admit. */
  ghost predicate AllTaken(c: Config, raw: seq<RawPart>, pieces: Parts)
  {
    |pieces| == |raw| && forall i :: 0 <= i < |raw| ==> Taken(c, pieces[..i], raw[i], pieces[i])
  }

  lemma AllTakenStep(c: Config, raw: seq<RawPart>, pieces: Parts)
    requires |pieces| == |raw| > 0
    ensures AllTaken(c, raw, pieces) <==>
              && AllTaken(c, raw[..|raw| - 1], pieces[..|raw| - 1])
              && Taken(c, pieces[..|raw| - 1], raw[|raw| - 1], pieces[|raw| - 1])
  {
    hide Taken;
    var init := pieces[..|raw| - 1];
    assert forall i :: 0 <= i <= |init| ==> init[..i] == pieces[..i];
  }

  /** The fold succeeds with exactly the pieces that are taken. */
  ghost predicate FoldsTo(c: Config, raw: seq<RawPart>)
  {
    && (Fold(c, Success(START), raw).Success? ==> exists pieces :: AllTaken(c, raw, pieces))
    && forall pieces :: AllTaken(c, raw, pieces) ==>
         Fold(c, Success(START), raw).Success? && Tracks(c, pieces, Fold(c, Success(START), raw).value)
  }

  lemma {:induction false} FoldByFields(c: Config, raw: seq<RawPart>)
    requires |raw| <= 64
    ensures FoldsTo(c, raw)
  {
    hide Step, Tracks, Taken, AllTaken;
    if raw == [] {
      NothingTaken(c);
    } else {
      var init, last := raw[..|raw| - 1], raw[|raw| - 1];
      FoldByFields(c, init);
      if Fold(c, Success(START), raw).Success? {
        var before :| AllTaken(c, init, before);
        TakenLength(c, init, before);
        StepByFields(c, before, Fold(c, Success(START), init).value, last);
        var p :| Taken(c, before, last, p);
        assert (before + [p])[..|init|] == before;
        AllTakenStep(c, raw, before + [p]);
      }
      forall pieces | AllTaken(c, raw, pieces)
        ensures Fold(c, Success(START), raw).Success? && Tracks(c, pieces, Fold(c, Success(START), raw).value)
      {
        TakenLength(c, raw, pieces);
        AllTakenStep(c, raw, pieces);
        var before := pieces[..|init|];
        StepByFields(c, before, Fold(c, Success(START), init).value, last);
        assert pieces == before + [pieces[|init|]];
      }
    }
  }

  lemma TakenLength(c: Config, raw: seq<RawPart>, pieces: Parts)
    requires AllTaken(c, raw, pieces)
    ensures |pieces| == |raw|
  {
    hide Taken;
  }

  lemma NothingTaken(c: Config)
    ensures AllTaken(c, [], []) && Tracks(c, [], START)
    ensures forall pieces :: AllTaken(c, [], pieces) ==> pieces == []
  {
    hide Taken;
  }

  // ---------------------------------------------------------------- the turn

  /** What a raw part yields, on the selected skills and resources as they were sent. */
  ghost predicate Means(f: Format, skillIDs: seq<string>, resources: Resources, canonical: Resources, raw: RawPart, p: Part)
  {
    !raw.stray &&
    match raw
    case RawText(text, _) => p == TextPart(text) && Valid(text)
    case RawSkill(id, _) => p == SkillPart(Trim(id)) && Trim(id) != "" && f.skillValid(Trim(id)) && Chosen(skillIDs, Trim(id))
    case RawResource(index, _) =>
      p.ResourcePart? && index.Some? && PointsTo(f, resources, canonical, index.value, p.index)
    case RawAnnotation(given, _) => p.AnnotationPart? && given.Some? && f.annotation(given.value) == Some(p.annotation)
    case RawAttachment(given, _) => p.AttachmentPart? && given.Some? && f.receipt(given.value) == Some(p.receipt)
    case RawUnknown(_) => false
  }

  predicate Chosen(skillIDs: seq<string>, id: string)
  {
    exists i :: 0 <= i < |skillIDs| && Trim(skillIDs[i]) == id
  }

  /** Resource `n` of the request and canonical resource `k` have the same key. */
  ghost predicate PointsTo(f: Format, resources: Resources, canonical: Resources, n: int, k: int)
  {
    && 0 <= n < |resources| && 0 <= k < |canonical|
    && exists t :: Spells(f, resources[n], t) && f.key(t) == f.key(canonical[k])
  }

  lemma IndexIs(f: Format, resources: Resources, n: nat, k: int)
    requires CanonicalResources(f, resources).Success? && n < |resources|
    ensures var canonical := CanonicalResources(f, resources).value;
            0 <= k < |canonical| && CanonicalIndex(f, canonical, resources[n]) == Some(k) <==>
              PointsTo(f, resources, canonical, n, k)
  {
    hide Less, CanonicalResources, Selects, Spells, NormalResource, Position;
    var canonical := CanonicalResources(f, resources).value;
    CanonicalMeaning(f, resources);
    IndexOfSelected(f, resources, n);
    var normal, at := NormalResource(f, resources[n]).value, CanonicalIndex(f, canonical, resources[n]).value;
    SpellsIs(f, resources[n], normal);
    forall t | Spells(f, resources[n], t)
      ensures t == normal
    {
      SpellsIs(f, resources[n], t);
    }
    if 0 <= k < |canonical| && f.key(canonical[k]) == f.key(normal) {
      LessTotal(f.key(normal), f.key(normal));
    }
  }

  lemma YieldsIs(f: Format, skillIDs: seq<string>, resources: Resources, raw: RawPart, p: Part)
    requires CanonicalResources(f, resources).Success?
    ensures var canonical := CanonicalResources(f, resources).value;
            var c := Configured(f, skillIDs, resources, canonical);
            Yields(c, raw, p) <==> Means(f, skillIDs, resources, canonical, raw, p)
  {
    hide CanonicalResources, CanonicalIndex, PointsTo, Valid, Trim;
    var canonical := CanonicalResources(f, resources).value;
    if raw.RawResource? && raw.index.Some? && 0 <= raw.index.value < |resources| && p.ResourcePart? {
      IndexIs(f, resources, raw.index.value, p.index);
    }
    PointsInside(f, resources, canonical);
  }

  lemma PointsInside(f: Format, resources: Resources, canonical: Resources)
    ensures forall n, k :: PointsTo(f, resources, canonical, n, k) ==> 0 <= n < |resources| && 0 <= k < |canonical|
  {}

  /** Every raw part yields its piece, and the pieces in front admit it. */
  ghost predicate AllMeant(
    f: Format, skillIDs: seq<string>, resources: Resources, canonical: Resources, raw: seq<RawPart>, pieces: Parts)
  {
    |pieces| == |raw| <= 64
    && forall i :: 0 <= i < |raw| ==>
         && Means(f, skillIDs, resources, canonical, raw[i], pieces[i])
         && Admits(Config(f, canonical, [], {}), pieces[..i], pieces[i])
  }

  /** Something is said, every selected skill and resource is among the pieces, and the prompt is valid. */
  ghost predicate Covers(f: Format, skillIDs: seq<string>, canonical: Resources, pieces: Parts)
  {
    && (exists i :: 0 <= i < |pieces| && pieces[i] != TextPart([]))
    && (forall id :: Chosen(skillIDs, id) && id != "" ==> SkillPart(id) in pieces)
    && (forall k :: 0 <= k < |canonical| ==> ResourcePart(k) in pieces)
    && Valid(Shown(Config(f, canonical, [], {}), pieces))
  }

  /** The turn made of these pieces: neighbouring texts joined, the renderings in order as the prompt. */
  ghost predicate TurnOf(f: Format, canonical: Resources, pieces: Parts, t: Turn)
  {
    && t.resources == canonical && Tokens(t.parts) == Tokens(pieces) && Uncut(t.parts)
    && t.derived == Shown(Config(f, canonical, [], {}), pieces)
  }

  lemma ShownAlike(c: Config, d: Config, pieces: Parts, p: Part)
    requires c.f == d.f && c.resources == d.resources
    ensures Admits(c, pieces, p) == Admits(d, pieces, p)
    ensures Shown(c, pieces) == Shown(d, pieces)
  {
    ShownSame(c, d, pieces);
  }

  lemma {:induction false} ShownSame(c: Config, d: Config, pieces: Parts)
    requires c.f == d.f && c.resources == d.resources
    ensures Shown(c, pieces) == Shown(d, pieces)
  {
    if pieces != [] {
      ShownSame(c, d, pieces[..|pieces| - 1]);
    }
  }

  lemma MeantIsTaken(f: Format, skillIDs: seq<string>, resources: Resources, raw: seq<RawPart>, pieces: Parts)
    requires CanonicalResources(f, resources).Success? && |raw| <= 64
    ensures var canonical := CanonicalResources(f, resources).value;
            AllTaken(Configured(f, skillIDs, resources, canonical), raw, pieces) <==>
              AllMeant(f, skillIDs, resources, canonical, raw, pieces)
  {
    hide CanonicalResources, Yields, Means, Admits, Configured;
    var canonical := CanonicalResources(f, resources).value;
    var c := Configured(f, skillIDs, resources, canonical);
    ConfiguredFields(f, skillIDs, resources, canonical);
    if |pieces| == |raw| {
      forall i | 0 <= i < |raw|
        ensures Taken(c, pieces[..i], raw[i], pieces[i]) <==>
                  && Means(f, skillIDs, resources, canonical, raw[i], pieces[i])
                  && Admits(Config(f, canonical, [], {}), pieces[..i], pieces[i])
      {
        YieldsIs(f, skillIDs, resources, raw[i], pieces[i]);
        ShownAlike(c, Config(f, canonical, [], {}), pieces[..i], pieces[i]);
      }
    }
  }

  lemma {:induction false} NoTokensExactly(parts: Parts)
    ensures Tokens(parts) == [] <==> forall i :: 0 <= i < |parts| ==> parts[i] == TextPart([])
  {
    if parts != [] {
      var init, last := parts[..|parts| - 1], parts[|parts| - 1];
      assert parts == init + [last];
      NoTokensExactly(init);
      assert TokensOf(last) == [] <==> last == TextPart([]);
    }
  }

  lemma SaysSomething(parts: Parts, pieces: Parts)
    requires Tokens(parts) == Tokens(pieces) && Uncut(parts)
    ensures parts != [] <==> exists i :: 0 <= i < |pieces| && pieces[i] != TextPart([])
  {
    hide Tokens;
    NoTokensExactly(parts);
    NoTokensExactly(pieces);
    if parts != [] {
      assert parts[0] != TextPart([]);
    }
  }

  lemma ChosenIs(skillIDs: seq<string>)
    ensures forall id :: id in Selected(skillIDs) <==> Chosen(skillIDs, id) && id != ""
  {
    hide Trim;
  }

  lemma FinishedIs(
    f: Format, skillIDs: seq<string>, resources: Resources, canonical: Resources, pieces: Parts, s: State)
    requires Tracks(Configured(f, skillIDs, resources, canonical), pieces, s)
    ensures var done := Finished(Configured(f, skillIDs, resources, canonical), s);
            && (done.Success? <==> Covers(f, skillIDs, canonical, pieces))
            && (done.Success? ==> TurnOf(f, canonical, pieces, done.value))
  {
    hide Configured, Valid, Shown, Tokens, Uncut, HasAnnotation, HasAttachment, Attached, AttachedBytes, Selected, Chosen;
    var c := Configured(f, skillIDs, resources, canonical);
    ConfiguredFields(f, skillIDs, resources, canonical);
    ShownAlike(c, Config(f, canonical, [], {}), pieces, TextPart([]));
    SaysSomething(s.parts, pieces);
    ChosenIs(skillIDs);
  }

  /**
    The canonical content of a turn. It exists if and only if the resources are taken, every
    raw part yields a piece that those in front admit, and the pieces cover what was
    selected; it then is these pieces in order, with neighbouring texts joined.
   */
  lemma TurnByFields(f: Format, raw: seq<RawPart>, skillIDs: seq<string>, resources: Resources)
    ensures Normalized(f, raw, skillIDs, resources).Success? ==>
              && CanonicalResources(f, resources).Success?
              && exists pieces :: AllMeant(f, skillIDs, resources, CanonicalResources(f, resources).value, raw, pieces)
                   && Covers(f, skillIDs, CanonicalResources(f, resources).value, pieces)
    ensures CanonicalResources(f, resources).Success? ==>
              forall pieces |
                && AllMeant(f, skillIDs, resources, CanonicalResources(f, resources).value, raw, pieces)
                && Covers(f, skillIDs, CanonicalResources(f, resources).value, pieces) ::
                && Normalized(f, raw, skillIDs, resources).Success?
                && TurnOf(f, CanonicalResources(f, resources).value, pieces, Normalized(f, raw, skillIDs, resources).value)
  {
    hide CanonicalResources, Fold, Finished, AllMeant, Covers, Configured, Tracks, AllTaken, TurnOf;
    if |raw| <= 64 && CanonicalResources(f, resources).Success? {
      var canonical := CanonicalResources(f, resources).value;
      var c := Configured(f, skillIDs, resources, canonical);
      FoldByFields(c, raw);
      forall pieces
        ensures AllTaken(c, raw, pieces) <==> AllMeant(f, skillIDs, resources, canonical, raw, pieces)
      {
        MeantIsTaken(f, skillIDs, resources, raw, pieces);
      }
      forall pieces | AllTaken(c, raw, pieces)
        ensures Finished(c, Fold(c, Success(START), raw).value).Success? <==> Covers(f, skillIDs, canonical, pieces)
        ensures Finished(c, Fold(c, Success(START), raw).value).Success? ==>
                  TurnOf(f, canonical, pieces, Finished(c, Fold(c, Success(START), raw).value).value)
      {
        FinishedIs(f, skillIDs, resources, canonical, pieces, Fold(c, Success(START), raw).value);
      }
    } else if CanonicalResources(f, resources).Success? {
      NotMeant(f, skillIDs, resources, CanonicalResources(f, resources).value, raw);
    }
  }

  lemma NotMeant(f: Format, skillIDs: seq<string>, resources: Resources, canonical: Resources, raw: seq<RawPart>)
    requires |raw| > 64
    ensures forall pieces :: !AllMeant(f, skillIDs, resources, canonical, raw, pieces)
  {}

  // ---------------------------------------------------------------- errors

  /** What the part yields would make the prompt too long. */
  ghost predicate Overflows(c: Config, pieces: Parts, raw: RawPart)
  {
    exists p :: Yields(c, raw, p) && |Shown(c, pieces) + ShownOne(c, p)| > 0x1_0000
  }

  ghost predicate YieldsNothing(c: Config, raw: RawPart) { forall p :: !Yields(c, raw, p) }

  predicate SkillFault(c: Config, skillID: string, e: PartsError)
  {
    var id := Trim(skillID);
    match e
    case MissingSkill => id == ""
    case InvalidSkill => id != "" && !c.f.skillValid(id)
    case UnselectedSkill => id != "" && c.f.skillValid(id) && id !in c.skills
    case _ => false
  }

  ghost predicate AnnotationFault(c: Config, pieces: Parts, raw: RawPart, e: PartsError)
    requires raw.RawAnnotation?
  {
    match e
    case MissingAnnotation => raw.annotation == None
    case InvalidAnnotation => raw.annotation.Some? && YieldsNothing(c, raw)
    case DuplicateAnnotation => exists p :: Yields(c, raw, p) && p.AnnotationPart? && HasAnnotation(pieces, p.annotation.id)
    case _ => false
  }

  ghost predicate AttachmentFault(c: Config, pieces: Parts, raw: RawPart, e: PartsError)
    requires raw.RawAttachment?
  {
    match e
    case MissingAttachment => raw.receipt == None
    case InvalidAttachment => raw.receipt.Some? && YieldsNothing(c, raw)
    case DuplicateAttachment => exists p :: Yields(c, raw, p) && p.AttachmentPart? && HasAttachment(pieces, p.receipt.id)
    case TooManyAttachments => !YieldsNothing(c, raw) && Attached(pieces) + 1 > c.f.maxAttachments
    case AttachmentsTooLarge =>
      exists p :: Yields(c, raw, p) && p.AttachmentPart? && Attached(pieces) + 1 <= c.f.maxAttachments
        && AttachedBytes(pieces) + p.receipt.sizeBytes > c.f.maxAttachmentBytes
    case _ => false
  }

  /** Why a part is refused behind these pieces. */
  ghost predicate Refuses(c: Config, pieces: Parts, raw: RawPart, e: PartsError)
  {
    if raw.RawUnknown? then e == UnknownType
    else if raw.stray then e == StrayFields
    else if e == TooLong then Overflows(c, pieces, raw)
    else
      match raw
      case RawText(text, _) => e == InvalidText && !Valid(text)
      case RawSkill(id, _) => SkillFault(c, id, e)
      case RawResource(index, _) => YieldsNothing(c, raw) && e == if index == None then MissingIndex else IndexOutOfRange
      case RawAnnotation(_, _) => AnnotationFault(c, pieces, raw, e)
      case RawAttachment(_, _) => AttachmentFault(c, pieces, raw, e)
      case RawUnknown(_) => false
  }

  lemma TextRefuses(c: Config, pieces: Parts, s: State, raw: RawPart)
    requires Tracks(c, pieces, s) && |pieces| < 64 && Step(c, s, raw).Failure? && raw.RawText?
    ensures Refuses(c, pieces, raw, Step(c, s, raw).error)
  {
    hide Tracks, Valid, Shown, HasAnnotation, HasAttachment, Attached, AttachedBytes, AddText;
    TracksLimits(c, pieces, s);
    AddTextSize(s.parts, raw.text);
    assert Valid(raw.text) && !raw.stray ==> Yields(c, raw, TextPart(raw.text));
  }

  lemma SkillRefuses(c: Config, pieces: Parts, s: State, raw: RawPart)
    requires Tracks(c, pieces, s) && |pieces| < 64 && Step(c, s, raw).Failure? && raw.RawSkill?
    ensures Refuses(c, pieces, raw, Step(c, s, raw).error)
  {
    hide Tracks, Trim, Shown, HasAnnotation, HasAttachment, Attached, AttachedBytes;
    TracksLimits(c, pieces, s);
    if Step(c, s, raw).error == TooLong {
      assert Yields(c, raw, SkillPart(Trim(raw.skillID)));
    }
  }

  lemma ResourceRefuses(c: Config, pieces: Parts, s: State, raw: RawPart)
    requires Tracks(c, pieces, s) && |pieces| < 64 && Step(c, s, raw).Failure? && raw.RawResource?
    ensures Refuses(c, pieces, raw, Step(c, s, raw).error)
  {
    hide Tracks, Shown, HasAnnotation, HasAttachment, Attached, AttachedBytes;
    TracksLimits(c, pieces, s);
    if Step(c, s, raw).error == TooLong {
      assert Yields(c, raw, ResourcePart(c.index[raw.index.value].value));
    }
  }

  lemma AnnotationRefuses(c: Config, pieces: Parts, s: State, raw: RawPart)
    requires Tracks(c, pieces, s) && |pieces| < 64 && Step(c, s, raw).Failure? && raw.RawAnnotation?
    ensures Refuses(c, pieces, raw, Step(c, s, raw).error)
  {
    hide Tracks, Shown, HasAnnotation, HasAttachment, Attached, AttachedBytes;
    TracksLimits(c, pieces, s);
    if raw.annotation.Some? && c.f.annotation(raw.annotation.value).Some? && !raw.stray {
      assert Yields(c, raw, AnnotationPart(c.f.annotation(raw.annotation.value).value));
    }
  }

  /** The checks of an attachment on the state. */
  predicate AttachmentCheck(c: Config, s: State, r: Chat.Receipt, e: PartsError)
  {
    match e
    case DuplicateAttachment => r.id in s.attachments
    case TooManyAttachments => r.id !in s.attachments && |s.attachments| + 1 > c.f.maxAttachments
    case AttachmentsTooLarge =>
      && r.id !in s.attachments && |s.attachments| + 1 <= c.f.maxAttachments
      && s.attachmentBytes + r.sizeBytes > c.f.maxAttachmentBytes
    case TooManyNormalized => |s.parts| + 1 > MAX_PARTS
    case TooLong => |s.derived + c.f.receiptText(r)| > MAX_DERIVED
    case _ => false
  }

  lemma AttachmentChecked(c: Config, s: State, given: Chat.Receipt, r: Chat.Receipt)
    requires c.f.receipt(given) == Some(r) && AttachmentStep(c, s, Some(given)).Failure?
    ensures AttachmentCheck(c, s, r, AttachmentStep(c, s, Some(given)).error)
  {
    Sets.SizeWith(s.attachments, r.id);
  }

  lemma AttachmentRefuses(c: Config, pieces: Parts, s: State, raw: RawPart)
    requires Tracks(c, pieces, s) && |pieces| < 64 && Step(c, s, raw).Failure? && raw.RawAttachment?
    ensures Refuses(c, pieces, raw, Step(c, s, raw).error)
  {
    hide Tracks, Shown, HasAnnotation, HasAttachment, Attached, AttachedBytes, SkillFault, AnnotationFault, TextStep,
         SkillStep, ResourceStep, AnnotationStep, Valid, Trim;
    TracksLimits(c, pieces, s);
    if raw.receipt.Some? && c.f.receipt(raw.receipt.value).Some? && !raw.stray {
      var r := c.f.receipt(raw.receipt.value).value;
      AttachmentChecked(c, s, raw.receipt.value, r);
      hide AttachmentStep;
      assert Yields(c, raw, AttachmentPart(r));
    }
  }

  lemma StepRefuses(c: Config, pieces: Parts, s: State, raw: RawPart)
    requires Tracks(c, pieces, s) && |pieces| < 64 && Step(c, s, raw).Failure?
    ensures Refuses(c, pieces, raw, Step(c, s, raw).error)
  {
    match raw
    case RawText(_, _) => hide *; TextRefuses(c, pieces, s, raw);
    case RawSkill(_, _) => hide *; SkillRefuses(c, pieces, s, raw);
    case RawResource(_, _) => hide *; ResourceRefuses(c, pieces, s, raw);
    case RawAnnotation(_, _) => hide *; AnnotationRefuses(c, pieces, s, raw);
    case RawAttachment(_, _) => hide *; AttachmentRefuses(c, pieces, s, raw);
    case RawUnknown(_) => hide Tracks;
  }

  lemma AddTextSize(parts: Parts, text: Bytes)
    ensures |AddText(parts, text)| <= |parts| + 1
  {}

  /** The first part that is refused, behind the pieces of those in front. */
  ghost predicate RefusedAt(c: Config, raw: seq<RawPart>, i: int, pieces: Parts, e: PartsError)
  {
    0 <= i < |raw| && AllTaken(c, raw[..i], pieces) && Refuses(c, pieces, raw[i], e)
  }

  lemma {:induction false} FoldRefuses(c: Config, raw: seq<RawPart>) returns (i: int, pieces: Parts)
    requires |raw| <= 64 && Fold(c, Success(START), raw).Failure?
    ensures RefusedAt(c, raw, i, pieces, Fold(c, Success(START), raw).error)
  {
    hide Step, Tracks, AllTaken, Refuses, Taken;
    var init := raw[..|raw| - 1];
    if Fold(c, Success(START), init).Failure? {
      i, pieces := FoldRefuses(c, init);
      assert init[..i] == raw[..i];
    } else {
      FoldByFields(c, init);
      pieces :| AllTaken(c, init, pieces);
      TakenLength(c, init, pieces);
      StepRefuses(c, pieces, Fold(c, Success(START), init).value, raw[|init|]);
      i := |init|;
    }
  }

  /** Why pieces that are all taken do not make a turn, in the order of the checks. */
  ghost predicate Incomplete(f: Format, skillIDs: seq<string>, canonical: Resources, pieces: Parts, e: PartsError)
  {
    var silent := forall i :: 0 <= i < |pieces| ==> pieces[i] == TextPart([]);
    var skilled := forall id :: Chosen(skillIDs, id) && id != "" ==> SkillPart(id) in pieces;
    var represented := forall k :: 0 <= k < |canonical| ==> ResourcePart(k) in pieces;
    match e
    case NoContent => silent
    case SkillNotRepresented => !silent && !skilled
    case ResourceNotRepresented => !silent && skilled && !represented
    case InvalidDerived => !silent && skilled && represented && !Valid(Shown(Config(f, canonical, [], {}), pieces))
    case _ => false
  }

  lemma FinishRefuses(
    f: Format, skillIDs: seq<string>, resources: Resources, canonical: Resources, pieces: Parts, s: State)
    requires Tracks(Configured(f, skillIDs, resources, canonical), pieces, s)
    requires Finished(Configured(f, skillIDs, resources, canonical), s).Failure?
    ensures Incomplete(f, skillIDs, canonical, pieces, Finished(Configured(f, skillIDs, resources, canonical), s).error)
  {
    hide Configured, Valid, Shown, Tokens, Uncut, HasAnnotation, HasAttachment, Attached, AttachedBytes, Selected, Chosen;
    var c := Configured(f, skillIDs, resources, canonical);
    ConfiguredFields(f, skillIDs, resources, canonical);
    ShownAlike(c, Config(f, canonical, [], {}), pieces, TextPart([]));
    SaysSomething(s.parts, pieces);
    ChosenIs(skillIDs);
  }

  /** Why the resources are refused. */
  ghost predicate ResourcesRefused(f: Format, resources: Resources, e: PartsError)
  {
    match e
    case BadResource => !AllSpelled(f, resources)
    case TooManyResources => exists rs: Resources :: Listed(f, resources, rs) && |rs| > 8
    case _ => false
  }

  lemma ResourcesRefuse(f: Format, resources: Resources)
    requires CanonicalResources(f, resources).Failure?
    ensures ResourcesRefused(f, resources, CanonicalResources(f, resources).error)
  {
    hide NormalResource, AllSpelled, Listed, KeepsFirsts;
    SpelledIs(f, resources);
    DedupedMeaning(f, resources);
    ResourcesByFields(f, resources);
  }

  /**
    Why there is no turn: too many parts, the resources, the first part that is refused, or
    what all the pieces together do not say, checked in this order.
   */
  lemma TurnRefused(f: Format, raw: seq<RawPart>, skillIDs: seq<string>, resources: Resources)
    requires Normalized(f, raw, skillIDs, resources).Failure?
    ensures var e, canonical := Normalized(f, raw, skillIDs, resources).error, CanonicalResources(f, resources);
            if |raw| > 64 then e == TooManyParts
            else if canonical.Failure? then ResourcesRefused(f, resources, e)
            else
              var c := Configured(f, skillIDs, resources, canonical.value);
              || (exists i, pieces :: RefusedAt(c, raw, i, pieces, e))
              || (exists pieces :: AllTaken(c, raw, pieces) && Incomplete(f, skillIDs, canonical.value, pieces, e))
  {
    hide CanonicalResources, Fold, Finished, Incomplete, RefusedAt, Configured, Tracks, AllTaken, ResourcesRefused;
    if |raw| <= 64 {
      if CanonicalResources(f, resources).Failure? {
        ResourcesRefuse(f, resources);
      } else {
        var canonical := CanonicalResources(f, resources).value;
        var c := Configured(f, skillIDs, resources, canonical);
        FoldByFields(c, raw);
        if Fold(c, Success(START), raw).Failure? {
          var i, pieces := FoldRefuses(c, raw);
        } else {
          var pieces :| AllTaken(c, raw, pieces);
          FinishRefuses(f, skillIDs, resources, canonical, pieces, Fold(c, Success(START), raw).value);
        }
      }
    }
  }
}
