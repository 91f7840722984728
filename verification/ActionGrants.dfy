/**
  Merging a desired action declaration into the grants of a binding: authority that is new
  or changed must have been verified in the same call, restrictions must never need it.
 */
module ActionGrants {
  import opened Wrappers
  import opened Text
  import Sets

  datatype Grant = Grant(
    name: string, version: string, digest: string, revoked: bool,
    grantedBy: string, grantedAt: Option<int>, revokedBy: string, revokedAt: Option<int>)

  datatype GrantError =
    | InvalidStored | DuplicateStored | UnknownRevocation | CallerRequired | BadAction | DuplicateAction | BadDigest
    | Rejected | CountMismatch

  type Grants = seq<Grant>

  /**
    What is not modelled of a call: case folding, the identifier and digest grammars, the
    caller, the clock, and the provider's catalogue behind `verify`.
   */
  datatype Call = Call(
    lower: string -> string,
    parse: (string, string) -> Option<(string, string)>,
    isDigest: string -> bool,
    user: string,
    now: int,
    verify: Grants -> Result<Grants, GrantError>)

  /** projectProviderActionKey; "" when the name or the version is blank. */
  function Key(call: Call, name: string, version: string): string
  {
    if Trim(name) == "" || Trim(version) == "" then "" else call.lower(Trim(name) + "\0" + Trim(version))
  }

  function KeyOf(call: Call, g: Grant): string { Key(call, g.name, g.version) }

  /** Identifiers are tight, and folding a key never gives the empty string. */
  ghost predicate Sound(call: Call)
  {
    && (forall s: string :: call.lower(s) == "" ==> s == "")
    && (forall name: string, version: string :: call.parse(name, version).Some? ==>
          var (n, v) := call.parse(name, version).value; n != "" && v != "" && Tight(n) && Tight(v))
  }

  /** Verification answers for the grants it was given: it only writes their audit. */
  ghost predicate Answers(call: Call)
  {
    forall asked: Grants :: call.verify(asked).Success? ==>
      var given := call.verify(asked).value;
      && |given| == |asked|
      && forall i :: 0 <= i < |asked| ==>
           && given[i].name == asked[i].name && given[i].version == asked[i].version && given[i].digest == asked[i].digest
  }

  // ---------------------------------------------------------------- normalising a declaration

  function NormalOne(call: Call, before: Grants, action: Grant): Result<Grants, GrantError>
  {
    match call.parse(action.name, action.version)
    case None => Failure(BadAction)
    case Some(coordinate) =>
      var g := Grant(coordinate.0, coordinate.1, Trim(action.digest), action.revoked, "", None, "", None);
      if HasKey(call, before, Folded(call, g)) then Failure(DuplicateAction)
      else if !action.revoked && !call.isDigest(g.digest) then Failure(BadDigest)
      else Success(before + [g])
  }

  function Folded(call: Call, g: Grant): string { call.lower(g.name + "\0" + g.version) }

  predicate HasKey(call: Call, grants: Grants, key: string)
  {
    exists i :: 0 <= i < |grants| && Folded(call, grants[i]) == key
  }

  /** normalizeProjectIntegrationActions. */
  function NormalActions(call: Call, actions: Grants): Result<Grants, GrantError>
  {
    if actions == [] then Success([])
    else
      match NormalActions(call, actions[..|actions| - 1])
      case Failure(e) => Failure(e)
      case Success(before) => NormalOne(call, before, actions[|actions| - 1])
  }

  predicate Distinct(call: Call, grants: Grants)
  {
    forall i, j :: 0 <= i < j < |grants| ==> KeyOf(call, grants[i]) != KeyOf(call, grants[j])
  }

  /** A normalised declaration: tight coordinates with different keys, no audit, and tight digests. */
  predicate Declaration(call: Call, grants: Grants)
  {
    && Distinct(call, grants)
    && forall i :: 0 <= i < |grants| ==>
         && KeyOf(call, grants[i]) == Folded(call, grants[i]) && KeyOf(call, grants[i]) != ""
         && Trim(grants[i].digest) == grants[i].digest
         && grants[i].revokedBy == "" && grants[i].revokedAt.None?
  }

  lemma {:induction false} NormalIsDeclaration(call: Call, actions: Grants)
    requires Sound(call) && NormalActions(call, actions).Success?
    ensures Declaration(call, NormalActions(call, actions).value)
    ensures |NormalActions(call, actions).value| == |actions|
  {
    hide NormalOne;
    if actions != [] {
      NormalIsDeclaration(call, actions[..|actions| - 1]);
      NormalOneDeclares(call, NormalActions(call, actions[..|actions| - 1]).value, actions[|actions| - 1]);
    }
  }

  lemma NormalOneDeclares(call: Call, before: Grants, action: Grant)
    requires Sound(call) && Declaration(call, before) && NormalOne(call, before, action).Success?
    ensures Declaration(call, NormalOne(call, before, action).value)
    ensures |NormalOne(call, before, action).value| == |before| + 1
  {
    hide Trim;
    var after := NormalOne(call, before, action).value;
    var g := after[|before|];
    TrimTight(g.name);
    TrimTight(g.version);
    TrimTight(action.digest);
    forall i | 0 <= i < |before|
      ensures KeyOf(call, after[i]) != KeyOf(call, g)
    {
      assert after[i] == before[i];
    }
  }

  method NormalizeActions(call: Call, actions: Grants) returns (r: Result<Grants, GrantError>)
    ensures r == NormalActions(call, actions)
  {
    var out: Grants, seen: set<string> := [], {};
    for i := 0 to |actions|
      invariant NormalActions(call, actions[..i]) == Success(out)
      invariant forall key :: key in seen <==> HasKey(call, out, key)
    {
      hide Trim;
      assert actions[..i + 1][..i] == actions[..i];
      var action := actions[i];
      match call.parse(action.name, action.version)
      case None =>
        NormalStops(call, actions, i + 1);
        return Failure(BadAction);
      case Some(coordinate) =>
        var g := Grant(coordinate.0, coordinate.1, Trim(action.digest), action.revoked, "", None, "", None);
        if Folded(call, g) in seen {
          NormalStops(call, actions, i + 1);
          return Failure(DuplicateAction);
        }
        if !action.revoked && !call.isDigest(g.digest) {
          NormalStops(call, actions, i + 1);
          return Failure(BadDigest);
        }
        HasKeyAppend(call, out, g);
        seen := seen + {Folded(call, g)};
        out := out + [g];
    }
    assert actions[..|actions|] == actions;
    return Success(out);
  }

  lemma HasKeyAppend(call: Call, grants: Grants, g: Grant)
    ensures forall key :: HasKey(call, grants + [g], key) <==> HasKey(call, grants, key) || key == Folded(call, g)
  {
    hide Folded;
    var all := grants + [g];
    forall key
      ensures HasKey(call, all, key) <==> HasKey(call, grants, key) || key == Folded(call, g)
    {
      if HasKey(call, grants, key) {
        var i :| 0 <= i < |grants| && Folded(call, grants[i]) == key;
        assert Folded(call, all[i]) == key;
      }
      if key == Folded(call, g) {
        assert Folded(call, all[|grants|]) == key;
      }
    }
  }

  lemma {:induction false} NormalStops(call: Call, actions: Grants, n: nat)
    requires n <= |actions| && NormalActions(call, actions[..n]).Failure?
    ensures NormalActions(call, actions) == NormalActions(call, actions[..n])
    decreases |actions| - n
  {
    hide NormalOne;
    if n == |actions| {
      assert actions[..n] == actions;
    } else {
      assert actions[..n + 1][..n] == actions[..n];
      NormalStops(call, actions, n + 1);
    }
  }

  // ---------------------------------------------------------------- the stored grants

  type Index = map<string, Grant>

  function Indexed(call: Call, existing: Grants): Result<Index, GrantError>
  {
    if existing == [] then Success(map[])
    else
      match Indexed(call, existing[..|existing| - 1])
      case Failure(e) => Failure(e)
      case Success(before) =>
        var g := existing[|existing| - 1];
        var key := KeyOf(call, g);
        if key == "" then Failure(InvalidStored)
        else if key in before then Failure(DuplicateStored)
        else Success(before[key := g])
  }

  lemma {:induction false} IndexedStops(call: Call, existing: Grants, n: nat)
    requires n <= |existing| && Indexed(call, existing[..n]).Failure?
    ensures Indexed(call, existing) == Indexed(call, existing[..n])
    decreases |existing| - n
  {
    hide KeyOf;
    if n == |existing| {
      assert existing[..n] == existing;
    } else {
      assert existing[..n + 1][..n] == existing[..n];
      IndexedStops(call, existing, n + 1);
    }
  }

  /** The index holds exactly the stored grants, each under its key. */
  lemma {:induction false} IndexedMeaning(call: Call, existing: Grants)
    requires Indexed(call, existing).Success?
    ensures var byKey := Indexed(call, existing).value;
            && (forall key :: key in byKey ==> byKey[key] in existing && KeyOf(call, byKey[key]) == key && key != "")
            && (forall g :: g in existing ==> KeyOf(call, g) in byKey && byKey[KeyOf(call, g)] == g)
  {
    hide KeyOf;
    if existing != [] {
      IndexedMeaning(call, existing[..|existing| - 1]);
      assert existing == existing[..|existing| - 1] + [existing[|existing| - 1]];
    }
  }

  /** An active declaration of a stored active grant with the same digest. */
  predicate Unchanged(prior: Grant, next: Grant)
  {
    !prior.revoked && !next.revoked && Trim(prior.digest) == Trim(next.digest)
  }

  /** Nothing is added, reactivated or changed. */
  predicate NoExpansion(call: Call, byKey: Index, normalized: Grants)
  {
    forall i :: 0 <= i < |normalized| ==>
      && KeyOf(call, normalized[i]) in byKey
      && (normalized[i].revoked || Unchanged(byKey[KeyOf(call, normalized[i])], normalized[i]))
  }

  /** A stored grant is removed, or an active one revoked. */
  predicate Reduces(call: Call, byKey: Index, normalized: Grants)
  {
    || (exists key :: key in byKey && !Declares(call, normalized, key))
    || (exists i :: 0 <= i < |normalized| && RevokesAt(call, byKey, normalized, i))
  }

  predicate RevokesAt(call: Call, byKey: Index, normalized: Grants, i: nat)
    requires i < |normalized|
  {
    normalized[i].revoked && KeyOf(call, normalized[i]) in byKey && !byKey[KeyOf(call, normalized[i])].revoked
  }

  predicate Declares(call: Call, grants: Grants, key: string)
  {
    exists i :: 0 <= i < |grants| && KeyOf(call, grants[i]) == key
  }

  predicate RestrictionOnly(call: Call, byKey: Index, normalized: Grants)
  {
    NoExpansion(call, byKey, normalized) && Reduces(call, byKey, normalized)
  }

  /** projectIntegrationActionPatchIsRestrictionOnly. */
  method IsRestrictionOnly(call: Call, byKey: Index, normalized: Grants) returns (r: bool)
    ensures r <==> RestrictionOnly(call, byKey, normalized)
  {
    hide KeyOf, Trim;
    var desired: set<string> := {};
    for i := 0 to |normalized|
      invariant forall key :: key in desired <==> exists j :: 0 <= j < i && KeyOf(call, normalized[j]) == key
    {
      desired := desired + {KeyOf(call, normalized[i])};
    }
    var hasReduction := byKey.Keys - desired != {};
    assert forall key :: key in desired <==> Declares(call, normalized, key);
    if hasReduction {
      ghost var key := Sets.Pick(byKey.Keys - desired);
      assert key in byKey && !Declares(call, normalized, key);
    } else {
      assert forall key :: key in byKey ==> key !in byKey.Keys - desired;
    }
    for i := 0 to |normalized|
      invariant forall j :: 0 <= j < i ==>
        KeyOf(call, normalized[j]) in byKey
        && (normalized[j].revoked || Unchanged(byKey[KeyOf(call, normalized[j])], normalized[j]))
      invariant hasReduction <==>
        || (exists key :: key in byKey && !Declares(call, normalized, key))
        || (exists j :: 0 <= j < i && RevokesAt(call, byKey, normalized, j))
    {
      var next := normalized[i];
      var key := KeyOf(call, next);
      if key !in byKey {
        return false;
      }
      var prior := byKey[key];
      if next.revoked {
        if !prior.revoked {
          assert RevokesAt(call, byKey, normalized, i);
          hasReduction := true;
        }
        continue;
      }
      if prior.revoked || Trim(prior.digest) != Trim(next.digest) {
        return false;
      }
    }
    return hasReduction;
  }

  // ---------------------------------------------------------------- merging

  /** What becomes of one declared action. */
  datatype Plan = Keep(grant: Grant) | Verify(preserve: bool) | Refuse(error: GrantError)

  function PlanOf(call: Call, byKey: Index, restriction: bool, next: Grant): Plan
  {
    var key := KeyOf(call, next);
    if key !in byKey then (if next.revoked then Refuse(UnknownRevocation) else Verify(false))
    else
      var prior := byKey[key];
      if next.revoked then
        if prior.revoked then Keep(prior)
        else if Trim(call.user) == "" then Refuse(CallerRequired)
        else Keep(prior.(revoked := true, revokedBy := Trim(call.user), revokedAt := Some(call.now)))
      else if restriction then Keep(prior)
      else Verify(!prior.revoked && Trim(prior.digest) == next.digest)
  }

  /** The declared actions up to the first refusal are planned; the rest is never reached. */
  function Refusal(call: Call, byKey: Index, restriction: bool, normalized: Grants): Option<GrantError>
  {
    if normalized == [] then None
    else
      match Refusal(call, byKey, restriction, normalized[..|normalized| - 1])
      case Some(e) => Some(e)
      case None =>
        match PlanOf(call, byKey, restriction, normalized[|normalized| - 1])
        case Refuse(e) => Some(e)
        case Keep(_) => None
        case Verify(_) => None
  }

  /** The declared actions that go to verification, in order. */
  function Asked(call: Call, byKey: Index, restriction: bool, normalized: Grants): (asked: Grants)
    ensures |asked| <= |normalized|
  {
    if normalized == [] then []
    else
      Asked(call, byKey, restriction, normalized[..|normalized| - 1])
        + (if PlanOf(call, byKey, restriction, normalized[|normalized| - 1]).Verify? then [normalized[|normalized| - 1]] else [])
  }

  function Fresh(g: Grant): Grant { g.(revoked := false, revokedBy := "", revokedAt := None) }

  /** How many declared actions before position `j` go to verification. */
  function Rank(call: Call, byKey: Index, restriction: bool, normalized: Grants, j: nat): nat
    requires j <= |normalized|
  {
    |Asked(call, byKey, restriction, normalized[..j])|
  }

  /** The merged grant at position `j`, given the answers of verification. */
  function Slot(call: Call, byKey: Index, restriction: bool, normalized: Grants, verified: Grants, j: nat): Grant
    requires j < |normalized|
  {
    var next, n := normalized[j], Rank(call, byKey, restriction, normalized, j);
    match PlanOf(call, byKey, restriction, next)
    case Keep(g) => g
    case Refuse(_) => next
    case Verify(preserve) =>
      if preserve && KeyOf(call, next) in byKey then byKey[KeyOf(call, next)]
      else if n < |verified| then Fresh(verified[n])
      else next
  }

  function Filled(call: Call, byKey: Index, restriction: bool, normalized: Grants, verified: Grants): Grants
  {
    seq(|normalized|, (j: nat) requires j < |normalized| => Slot(call, byKey, restriction, normalized, verified, j))
  }

  function Concluded(call: Call, byKey: Index, restriction: bool, normalized: Grants): Result<Grants, GrantError>
    requires Refusal(call, byKey, restriction, normalized).None?
  {
    var asked := Asked(call, byKey, restriction, normalized);
    if asked == [] then Success(Filled(call, byKey, restriction, normalized, []))
    else
      match call.verify(asked)
      case Failure(e) => Failure(e)
      case Success(verified) =>
        if |verified| != |asked| then Failure(CountMismatch)
        else Success(Filled(call, byKey, restriction, normalized, verified))
  }

  function Merged(call: Call, existing: Grants, desired: Grants): Result<Grants, GrantError>
  {
    match NormalActions(call, desired)
    case Failure(e) => Failure(e)
    case Success(normalized) =>
      match Indexed(call, existing)
      case Failure(e) => Failure(e)
      case Success(byKey) =>
        var restriction := RestrictionOnly(call, byKey, normalized);
        match Refusal(call, byKey, restriction, normalized)
        case Some(e) => Failure(e)
        case None => Concluded(call, byKey, restriction, normalized)
  }

  lemma PlanStep(call: Call, byKey: Index, restriction: bool, normalized: Grants, i: nat)
    requires i < |normalized| && Refusal(call, byKey, restriction, normalized[..i]).None?
    ensures var plan := PlanOf(call, byKey, restriction, normalized[i]);
            && Refusal(call, byKey, restriction, normalized[..i + 1])
                 == (match plan case Refuse(e) => Some(e) case Keep(_) => None case Verify(_) => None)
            && Asked(call, byKey, restriction, normalized[..i + 1])
                 == Asked(call, byKey, restriction, normalized[..i]) + (if plan.Verify? then [normalized[i]] else [])
  {
    hide PlanOf;
    assert normalized[..i + 1][..i] == normalized[..i];
  }

  lemma {:induction false} RefusalStays(call: Call, byKey: Index, restriction: bool, normalized: Grants, n: nat)
    requires n <= |normalized| && Refusal(call, byKey, restriction, normalized[..n]).Some?
    ensures Refusal(call, byKey, restriction, normalized) == Refusal(call, byKey, restriction, normalized[..n])
    decreases |normalized| - n
  {
    hide PlanOf;
    if n == |normalized| {
      assert normalized[..n] == normalized;
    } else {
      assert normalized[..n + 1][..n] == normalized[..n];
      RefusalStays(call, byKey, restriction, normalized, n + 1);
    }
  }

  lemma {:induction false} RefusalPrefix(call: Call, byKey: Index, restriction: bool, normalized: Grants, n: nat)
    requires n <= |normalized| && Refusal(call, byKey, restriction, normalized).None?
    ensures Refusal(call, byKey, restriction, normalized[..n]).None?
  {
    if Refusal(call, byKey, restriction, normalized[..n]).Some? {
      RefusalStays(call, byKey, restriction, normalized, n);
    }
  }

  lemma {:induction false} AskedPrefix(call: Call, byKey: Index, restriction: bool, normalized: Grants, n: nat)
    requires n <= |normalized|
    ensures var part, whole := Asked(call, byKey, restriction, normalized[..n]), Asked(call, byKey, restriction, normalized);
            |part| <= |whole| && whole[..|part|] == part
    decreases |normalized|
  {
    hide PlanOf;
    if n == |normalized| {
      assert normalized[..n] == normalized;
    } else {
      assert normalized[..|normalized| - 1][..n] == normalized[..n];
      AskedPrefix(call, byKey, restriction, normalized[..|normalized| - 1], n);
    }
  }

  /** An action that goes to verification is the one asked about at its rank. */
  lemma AskedAt(call: Call, byKey: Index, restriction: bool, normalized: Grants, j: nat)
    requires j < |normalized| && Refusal(call, byKey, restriction, normalized).None?
    requires PlanOf(call, byKey, restriction, normalized[j]).Verify?
    ensures var n, asked := Rank(call, byKey, restriction, normalized, j), Asked(call, byKey, restriction, normalized);
            n < |asked| && asked[n] == normalized[j]
  {
    hide PlanOf, Asked, Refusal;
    RefusalPrefix(call, byKey, restriction, normalized, j);
    PlanStep(call, byKey, restriction, normalized, j);
    AskedPrefix(call, byKey, restriction, normalized, j + 1);
  }

  /** mergeProjectIntegrationActions. */
  method MergeActions(call: Call, existing: Grants, desired: Grants) returns (r: Result<Grants, GrantError>)
    ensures r == Merged(call, existing, desired)
  {
    hide NormalActions, RestrictionOnly, PlanOf, Refusal, Asked, Filled;
    var normalization := NormalizeActions(call, desired);
    match normalization
    case Failure(e) => return Failure(e);
    case Success(normalized) =>
      var indexing := IndexExisting(call, existing);
      match indexing {
        case Failure(e) => return Failure(e);
        case Success(byKey) =>
          var restriction := IsRestrictionOnly(call, byKey, normalized);
          r := MergeIndexed(call, byKey, restriction, normalized);
      }
  }

  method IndexExisting(call: Call, existing: Grants) returns (r: Result<Index, GrantError>)
    ensures r == Indexed(call, existing)
  {
    hide KeyOf;
    var byKey: Index := map[];
    for i := 0 to |existing|
      invariant Indexed(call, existing[..i]) == Success(byKey)
    {
      assert existing[..i + 1][..i] == existing[..i];
      var key := KeyOf(call, existing[i]);
      if key == "" {
        IndexedStops(call, existing, i + 1);
        return Failure(InvalidStored);
      }
      if key in byKey {
        IndexedStops(call, existing, i + 1);
        return Failure(DuplicateStored);
      }
      byKey := byKey[key := existing[i]];
    }
    assert existing[..|existing|] == existing;
    return Success(byKey);
  }

  /** Where the answers of verification belong, for the first `upto` actions. */
  ghost predicate Routes(
    call: Call, byKey: Index, restriction: bool, normalized: Grants, upto: nat, indexes: seq<nat>, preserve: seq<bool>)
    requires upto <= |normalized|
  {
    && |indexes| == |preserve| == Rank(call, byKey, restriction, normalized, upto)
    && (forall k :: 0 <= k < |indexes| ==>
          && indexes[k] < upto && Rank(call, byKey, restriction, normalized, indexes[k]) == k
          && PlanOf(call, byKey, restriction, normalized[indexes[k]]) == Verify(preserve[k]))
    && (forall j :: 0 <= j < upto && PlanOf(call, byKey, restriction, normalized[j]).Verify? ==>
          && Rank(call, byKey, restriction, normalized, j) < |indexes|
          && indexes[Rank(call, byKey, restriction, normalized, j)] == j)
  }

  lemma RoutesStep(
    call: Call, byKey: Index, restriction: bool, normalized: Grants, upto: nat, indexes: seq<nat>, preserve: seq<bool>)
    requires upto < |normalized| && Routes(call, byKey, restriction, normalized, upto, indexes, preserve)
    requires Refusal(call, byKey, restriction, normalized[..upto]).None?
    ensures match PlanOf(call, byKey, restriction, normalized[upto])
            case Verify(keep) =>
              Routes(call, byKey, restriction, normalized, upto + 1, indexes + [upto], preserve + [keep])
            case Keep(_) => Routes(call, byKey, restriction, normalized, upto + 1, indexes, preserve)
            case Refuse(_) => true
  {
    hide PlanOf, Asked, Refusal;
    PlanStep(call, byKey, restriction, normalized, upto);
    assert Rank(call, byKey, restriction, normalized, upto + 1)
        == |indexes| + (if PlanOf(call, byKey, restriction, normalized[upto]).Verify? then 1 else 0);
    hide Rank;
  }

  /** The planning loop, the call of verification, and the loop over its answers. */
  method MergeIndexed(call: Call, byKey: Index, restriction: bool, normalized: Grants)
    returns (r: Result<Grants, GrantError>)
    ensures r == match Refusal(call, byKey, restriction, normalized)
                 case Some(e) => Failure(e)
                 case None => Concluded(call, byKey, restriction, normalized)
  {
    hide PlanOf, KeyOf, Refusal, Asked, Fresh, Rank, Slot, Routes;
    var merged: Grants := normalized;
    var toVerify: Grants, verifyIndexes: seq<nat>, preserveAudit: seq<bool> := [], [], [];
    EmptyPlan(call, byKey, restriction, normalized);
    for index := 0 to |normalized|
      invariant Refusal(call, byKey, restriction, normalized[..index]).None?
      invariant toVerify == Asked(call, byKey, restriction, normalized[..index])
      invariant Routes(call, byKey, restriction, normalized, index, verifyIndexes, preserveAudit)
      invariant |merged| == |normalized|
      invariant forall j :: 0 <= j < index && PlanOf(call, byKey, restriction, normalized[j]).Keep? ==>
                  merged[j] == PlanOf(call, byKey, restriction, normalized[j]).grant
    {
      PlanStep(call, byKey, restriction, normalized, index);
      RoutesStep(call, byKey, restriction, normalized, index, verifyIndexes, preserveAudit);
      match PlanOf(call, byKey, restriction, normalized[index])
      case Refuse(e) =>
        RefusalStays(call, byKey, restriction, normalized, index + 1);
        return Failure(e);
      case Keep(g) =>
        merged := merged[index := g];
      case Verify(preserve) =>
        toVerify := toVerify + [normalized[index]];
        verifyIndexes := verifyIndexes + [index];
        preserveAudit := preserveAudit + [preserve];
    }
    assert normalized[..|normalized|] == normalized;
    if |toVerify| == 0 {
      NothingAsked(call, byKey, restriction, normalized, verifyIndexes, preserveAudit, merged);
      return Success(merged);
    }
    match call.verify(toVerify)
    case Failure(e) => return Failure(e);
    case Success(verified) =>
      RoutesWidth(call, byKey, restriction, normalized, verifyIndexes, preserveAudit);
      if |verified| != |verifyIndexes| {
        return Failure(CountMismatch);
      }
      merged := Answered(call, byKey, restriction, normalized, verified, verifyIndexes, preserveAudit, merged);
      return Success(merged);
  }

  /** The loop over the answers of verification. */
  method Answered(
    call: Call, byKey: Index, restriction: bool, normalized: Grants, verified: Grants,
    verifyIndexes: seq<nat>, preserveAudit: seq<bool>, planned: Grants) returns (merged: Grants)
    requires Refusal(call, byKey, restriction, normalized).None?
    requires Routes(call, byKey, restriction, normalized, |normalized|, verifyIndexes, preserveAudit)
    requires |verified| == |verifyIndexes| && |planned| == |normalized|
    requires forall j :: 0 <= j < |normalized| && PlanOf(call, byKey, restriction, normalized[j]).Keep? ==>
               planned[j] == PlanOf(call, byKey, restriction, normalized[j]).grant
    ensures merged == Filled(call, byKey, restriction, normalized, verified)
  {
    hide KeyOf, Refusal, Asked, Fresh, Rank;
    merged := planned;
    for index := 0 to |verified|
      invariant |merged| == |normalized|
      invariant forall j :: 0 <= j < |normalized| && PlanOf(call, byKey, restriction, normalized[j]).Keep? ==>
                  merged[j] == PlanOf(call, byKey, restriction, normalized[j]).grant
      invariant forall k :: 0 <= k < index ==>
                  merged[verifyIndexes[k]] == Slot(call, byKey, restriction, normalized, verified, verifyIndexes[k])
    {
      var at := verifyIndexes[index];
      var next := normalized[at];
      merged := merged[at := if preserveAudit[index] then byKey[KeyOf(call, next)] else Fresh(verified[index])];
    }
    forall j | 0 <= j < |normalized|
      ensures merged[j] == Slot(call, byKey, restriction, normalized, verified, j)
    {
      NoRefusalAt(call, byKey, restriction, normalized, j);
    }
  }

  lemma NoRefusalAt(call: Call, byKey: Index, restriction: bool, normalized: Grants, j: nat)
    requires j < |normalized| && Refusal(call, byKey, restriction, normalized).None?
    ensures !PlanOf(call, byKey, restriction, normalized[j]).Refuse?
  {
    hide PlanOf, Refusal, Asked;
    RefusalPrefix(call, byKey, restriction, normalized, j);
    RefusalPrefix(call, byKey, restriction, normalized, j + 1);
    PlanStep(call, byKey, restriction, normalized, j);
  }

  lemma RoutesWidth(
    call: Call, byKey: Index, restriction: bool, normalized: Grants, indexes: seq<nat>, preserve: seq<bool>)
    requires Routes(call, byKey, restriction, normalized, |normalized|, indexes, preserve)
    ensures |indexes| == |Asked(call, byKey, restriction, normalized)|
  {
    hide PlanOf, Asked;
    assert normalized[..|normalized|] == normalized;
  }

  lemma NothingAsked(
    call: Call, byKey: Index, restriction: bool, normalized: Grants, indexes: seq<nat>, preserve: seq<bool>, merged: Grants)
    requires Refusal(call, byKey, restriction, normalized).None? && Asked(call, byKey, restriction, normalized) == []
    requires Routes(call, byKey, restriction, normalized, |normalized|, indexes, preserve) && |merged| == |normalized|
    requires forall j :: 0 <= j < |normalized| && PlanOf(call, byKey, restriction, normalized[j]).Keep? ==>
               merged[j] == PlanOf(call, byKey, restriction, normalized[j]).grant
    ensures merged == Filled(call, byKey, restriction, normalized, [])
  {
    hide PlanOf, KeyOf, Refusal, Asked, Fresh, Rank;
    RoutesWidth(call, byKey, restriction, normalized, indexes, preserve);
    forall j | 0 <= j < |normalized|
      ensures merged[j] == Slot(call, byKey, restriction, normalized, [], j)
    {
      NoRefusalAt(call, byKey, restriction, normalized, j);
    }
  }

  lemma EmptyPlan(call: Call, byKey: Index, restriction: bool, normalized: Grants)
    ensures Refusal(call, byKey, restriction, normalized[..0]).None?
    ensures Asked(call, byKey, restriction, normalized[..0]) == []
    ensures Routes(call, byKey, restriction, normalized, 0, [], [])
  {}

  // ---------------------------------------------------------------- who must authorise

  /** Stored grants by key, the last of each; blank keys are skipped. */
  function Priors(call: Call, existing: Grants): Index
  {
    if existing == [] then map[]
    else
      var before, g := Priors(call, existing[..|existing| - 1]), existing[|existing| - 1];
      if KeyOf(call, g) == "" then before else before[KeyOf(call, g) := g]
  }

  /** An active grant that is new, reactivated or changed. */
  predicate Expands(call: Call, priors: Index, g: Grant)
  {
    !g.revoked && !(KeyOf(call, g) in priors && Unchanged(priors[KeyOf(call, g)], g))
  }

  function Requiring(call: Call, priors: Index, merged: Grants): Grants
  {
    if merged == [] then []
    else
      Requiring(call, priors, merged[..|merged| - 1])
        + (if Expands(call, priors, merged[|merged| - 1]) then [merged[|merged| - 1]] else [])
  }

  /** projectIntegrationActionsRequiringAuthorization. */
  method RequiringAuthorization(call: Call, existing: Grants, merged: Grants) returns (requiring: Grants)
    ensures requiring == Requiring(call, Priors(call, existing), merged)
  {
    hide KeyOf, Trim;
    var priorByKey: Index := map[];
    for i := 0 to |existing|
      invariant priorByKey == Priors(call, existing[..i])
    {
      assert existing[..i + 1][..i] == existing[..i];
      var key := KeyOf(call, existing[i]);
      if key != "" {
        priorByKey := priorByKey[key := existing[i]];
      }
    }
    assert existing[..|existing|] == existing;
    requiring := [];
    for i := 0 to |merged|
      invariant requiring == Requiring(call, priorByKey, merged[..i])
    {
      assert merged[..i + 1][..i] == merged[..i];
      var next := merged[i];
      if next.revoked {
        continue;
      }
      var key := KeyOf(call, next);
      if key !in priorByKey || priorByKey[key].revoked || Trim(priorByKey[key].digest) != Trim(next.digest) {
        requiring := requiring + [next];
      }
    }
    assert merged[..|merged|] == merged;
  }

  lemma {:induction false} PriorsAreIndex(call: Call, existing: Grants)
    requires Indexed(call, existing).Success?
    ensures Priors(call, existing) == Indexed(call, existing).value
  {
    hide KeyOf;
    if existing != [] {
      PriorsAreIndex(call, existing[..|existing| - 1]);
    }
  }

  lemma {:induction false} RequiringMeaning(call: Call, priors: Index, merged: Grants, g: Grant)
    ensures g in Requiring(call, priors, merged) <==> g in merged && Expands(call, priors, g)
  {
    hide Expands;
    if merged != [] {
      RequiringMeaning(call, priors, merged[..|merged| - 1], g);
      assert merged == merged[..|merged| - 1] + [merged[|merged| - 1]];
    }
  }

  // ---------------------------------------------------------------- authority

  /** What a successful merge was made of. */
  datatype Patch = Patch(byKey: Index, normalized: Grants, restriction: bool, asked: Grants)

  function PatchOf(call: Call, existing: Grants, desired: Grants): Patch
    requires Merged(call, existing, desired).Success?
  {
    var normalized, byKey := NormalActions(call, desired).value, Indexed(call, existing).value;
    var restriction := RestrictionOnly(call, byKey, normalized);
    Patch(byKey, normalized, restriction, Asked(call, byKey, restriction, normalized))
  }

  /** The grant at position `j` follows from the stored grant and the declared action alone. */
  predicate Follows(call: Call, p: Patch, next: Grant, g: Grant)
  {
    var key := KeyOf(call, next);
    && KeyOf(call, g) == key && g.revoked == next.revoked
    && (next.revoked ==> key in p.byKey)
    && (next.revoked && p.byKey[key].revoked ==> g == p.byKey[key])
    && (next.revoked && !p.byKey[key].revoked ==>
          g == p.byKey[key].(revoked := true, revokedBy := Trim(call.user), revokedAt := Some(call.now))
          && Trim(call.user) != "")
    && (key in p.byKey && Unchanged(p.byKey[key], next) ==> g == p.byKey[key])
    && (!next.revoked && !(key in p.byKey && Unchanged(p.byKey[key], next)) ==>
          !p.restriction && g.name == next.name && g.version == next.version && g.digest == next.digest
          && g.revokedBy == "" && g.revokedAt.None?)
    && (!next.revoked && !p.restriction ==> next in p.asked && call.verify(p.asked).Success?)
  }

  lemma SlotFollows(call: Call, p: Patch, verified: Grants, j: nat)
    requires Sound(call) && Answers(call) && Declaration(call, p.normalized)
    requires p.restriction == RestrictionOnly(call, p.byKey, p.normalized) && j < |p.normalized|
    requires p.asked == Asked(call, p.byKey, p.restriction, p.normalized)
    requires Refusal(call, p.byKey, p.restriction, p.normalized).None?
    requires forall key :: key in p.byKey ==> KeyOf(call, p.byKey[key]) == key
    requires p.asked == [] || (call.verify(p.asked) == Success(verified) && |verified| == |p.asked|)
    ensures Follows(call, p, p.normalized[j], Slot(call, p.byKey, p.restriction, p.normalized, verified, j))
  {
    hide KeyOf, Trim, Asked, Refusal, Rank, Reduces, Distinct, Sound;
    var next := p.normalized[j];
    NoRefusalAt(call, p.byKey, p.restriction, p.normalized, j);
    if PlanOf(call, p.byKey, p.restriction, next).Verify? {
      AskedAt(call, p.byKey, p.restriction, p.normalized, j);
      var n := Rank(call, p.byKey, p.restriction, p.normalized, j);
      SameKey(call, verified[n], next);
    }
    RevokedKey(call, next, p.byKey);
  }

  lemma SameKey(call: Call, g: Grant, next: Grant)
    ensures g.name == next.name && g.version == next.version ==> KeyOf(call, Fresh(g)) == KeyOf(call, next)
  {}

  lemma RevokedKey(call: Call, next: Grant, byKey: Index)
    ensures KeyOf(call, next) in byKey ==>
              KeyOf(call, byKey[KeyOf(call, next)].(revoked := true, revokedBy := Trim(call.user), revokedAt := Some(call.now)))
                == KeyOf(call, byKey[KeyOf(call, next)])
  {}

  /**
    A merged binding holds one grant per declared action and nothing else; each one is the
    stored record, the stored record now revoked, or the answer of this call's verification.
   */
  lemma MergedFollows(call: Call, existing: Grants, desired: Grants, j: nat)
    requires Sound(call) && Answers(call) && Merged(call, existing, desired).Success?
    ensures |Merged(call, existing, desired).value| == |desired|
    ensures j < |desired| ==>
              var p := PatchOf(call, existing, desired);
              |p.normalized| == |desired| && Follows(call, p, p.normalized[j], Merged(call, existing, desired).value[j])
  {
    hide NormalActions, Indexed, RestrictionOnly, Asked, Refusal, Slot, Follows, KeyOf, Declaration, Sound, Answers;
    NormalIsDeclaration(call, desired);
    IndexedMeaning(call, existing);
    var p := PatchOf(call, existing, desired);
    if j < |desired| {
      SlotFollows(call, p, if p.asked == [] then [] else call.verify(p.asked).value, j);
    }
  }

  /** A restriction never consults the catalogue and asks nobody for authorisation. */
  lemma RestrictionNeedsNobody(call: Call, existing: Grants, desired: Grants)
    requires Sound(call) && Answers(call) && Merged(call, existing, desired).Success?
    requires PatchOf(call, existing, desired).restriction
    ensures PatchOf(call, existing, desired).asked == []
    ensures Requiring(call, Priors(call, existing), Merged(call, existing, desired).value) == []
  {
    hide NormalActions, Indexed, RestrictionOnly, Refusal, Slot, KeyOf, Declaration, Sound, Answers, Trim, Filled, Requiring;
    var p, merged := PatchOf(call, existing, desired), Merged(call, existing, desired).value;
    RestrictionAsksNothing(call, p.byKey, p.normalized, |p.normalized|);
    assert p.normalized[..|p.normalized|] == p.normalized;
    ghost var requiring := Requiring(call, Priors(call, existing), merged);
    if requiring != [] {
      RequiringMeaning(call, Priors(call, existing), merged, requiring[0]);
      ExpansionWasVerified(call, existing, desired, requiring[0]);
      assert false;
    }
  }

  lemma {:induction false} RestrictionAsksNothing(call: Call, byKey: Index, normalized: Grants, n: nat)
    requires RestrictionOnly(call, byKey, normalized) && n <= |normalized|
    ensures Asked(call, byKey, true, normalized[..n]) == []
  {
    hide KeyOf, Trim, Reduces;
    if n > 0 {
      RestrictionAsksNothing(call, byKey, normalized, n - 1);
      assert normalized[..n][..n - 1] == normalized[..n - 1];
    }
  }

  /** Authority that is new, reactivated or changed was verified, in this call. */
  lemma ExpansionWasVerified(call: Call, existing: Grants, desired: Grants, g: Grant)
    requires Sound(call) && Answers(call) && Merged(call, existing, desired).Success?
    requires g in Requiring(call, Priors(call, existing), Merged(call, existing, desired).value)
    ensures var p := PatchOf(call, existing, desired);
            && !p.restriction && call.verify(p.asked).Success?
            && exists next :: next in p.asked && next.name == g.name && next.version == g.version
                 && next.digest == g.digest && !next.revoked
  {
    hide NormalActions, Indexed, RestrictionOnly, Refusal, Slot, KeyOf, Declaration, Sound, Answers, Trim, Filled, Requiring,
         Asked, Priors, Merged, PatchOf, Unchanged;
    var p, merged := PatchOf(call, existing, desired), Merged(call, existing, desired).value;
    RequiringMeaning(call, Priors(call, existing), merged, g);
    var j :| 0 <= j < |merged| && merged[j] == g;
    MergedFollows(call, existing, desired, j);
    var next := p.normalized[j];
    PriorsOfPatch(call, existing, desired);
    if KeyOf(call, next) in p.byKey {
      var prior := p.byKey[KeyOf(call, next)];
      if Unchanged(prior, next) {
        UnchangedItself(prior, next);
      }
    }
  }

  lemma PriorsOfPatch(call: Call, existing: Grants, desired: Grants)
    requires Merged(call, existing, desired).Success?
    ensures Priors(call, existing) == PatchOf(call, existing, desired).byKey
  {
    hide NormalActions, Indexed, RestrictionOnly, Asked, Refusal, Concluded, Priors;
    PriorsAreIndex(call, existing);
  }

  lemma UnchangedItself(prior: Grant, next: Grant)
    requires Unchanged(prior, next)
    ensures Unchanged(prior, prior)
  {
    hide Trim;
  }

  /** Unless the patch only restricts, every active merged grant was verified in this call. */
  lemma EveryActiveGrantVerified(call: Call, existing: Grants, desired: Grants, j: nat)
    requires Sound(call) && Answers(call) && Merged(call, existing, desired).Success?
    requires !PatchOf(call, existing, desired).restriction
    requires j < |Merged(call, existing, desired).value| && !Merged(call, existing, desired).value[j].revoked
    ensures var p := PatchOf(call, existing, desired);
            j < |p.normalized| && p.normalized[j] in p.asked && call.verify(p.asked).Success?
  {
    hide Merged, PatchOf, KeyOf, Unchanged;
    MergedFollows(call, existing, desired, j);
  }
}
