/**
  The merge of action grants on the fields of the stored and declared actions: what is taken,
  what each merged grant is, and who must have verified it.
 */
module GrantReading {
  import opened Wrappers
  import opened Text
  import opened ActionGrants

  // ---------------------------------------------------------------- coordinates

  /** The coordinates of a declared action. */
  predicate Parsed(call: Call, action: Grant, name: string, version: string)
  {
    call.parse(action.name, action.version) == Some((name, version))
  }

  /** The folded key of a pair of coordinates. */
  function At(call: Call, name: string, version: string): string { call.lower(name + "\0" + version) }

  /** Stored grant `k` is complete and stands at these coordinates. */
  predicate PriorAt(call: Call, existing: Grants, k: nat, name: string, version: string)
  {
    && k < |existing| && Trim(existing[k].name) != "" && Trim(existing[k].version) != ""
    && At(call, Trim(existing[k].name), Trim(existing[k].version)) == At(call, name, version)
  }

  predicate NoPrior(call: Call, existing: Grants, name: string, version: string)
  {
    forall k :: 0 <= k < |existing| ==> !PriorAt(call, existing, k, name, version)
  }

  lemma TightKey(call: Call, g: Grant)
    requires Tight(g.name) && Tight(g.version) && g.name != "" && g.version != ""
    ensures KeyOf(call, g) == At(call, g.name, g.version)
  {
    hide Trim;
    TrimTight(g.name);
    TrimTight(g.version);
  }

  // ---------------------------------------------------------------- declarations

  /** Every action parses, the active ones have a digest, and no two have the same coordinates. */
  ghost predicate Declarable(call: Call, actions: Grants)
  {
    && (forall i :: 0 <= i < |actions| ==> Acceptable(call, actions[i]))
    && (forall i, j, n, v, m, w :: 0 <= i < j < |actions| && Parsed(call, actions[i], n, v) && Parsed(call, actions[j], m, w)
          ==> At(call, n, v) != At(call, m, w))
  }

  predicate Acceptable(call: Call, action: Grant)
  {
    call.parse(action.name, action.version).Some? && (action.revoked || call.isDigest(Trim(action.digest)))
  }

  /** A declared action in its normal form: parsed, digest trimmed, without any audit field. */
  predicate NormalOf(call: Call, action: Grant, g: Grant)
  {
    && Parsed(call, action, g.name, g.version) && g.digest == Trim(action.digest) && g.revoked == action.revoked
    && g.grantedBy == "" && g.grantedAt == None && g.revokedBy == "" && g.revokedAt == None
  }

  ghost predicate AllNormal(call: Call, actions: Grants, grants: Grants)
  {
    |grants| == |actions| && forall i :: 0 <= i < |actions| ==> NormalOf(call, actions[i], grants[i])
  }

  lemma NormalStep(call: Call, before: Grants, actions: Grants, action: Grant)
    requires AllNormal(call, actions, before)
    ensures NormalOne(call, before, action).Success? <==>
              && Acceptable(call, action)
              && forall i, n, v, m, w :: 0 <= i < |actions| && Parsed(call, actions[i], n, v) && Parsed(call, action, m, w)
                   ==> At(call, n, v) != At(call, m, w)
    ensures NormalOne(call, before, action).Success? ==>
              AllNormal(call, actions + [action], NormalOne(call, before, action).value)
  {
    hide Trim;
    match call.parse(action.name, action.version)
    case None =>
    case Some(c) =>
      var g := Grant(c.0, c.1, Trim(action.digest), action.revoked, "", None, "", None);
      if HasKey(call, before, Folded(call, g)) {
        var i :| 0 <= i < |before| && Folded(call, before[i]) == Folded(call, g);
        assert NormalOf(call, actions[i], before[i]);
        assert Parsed(call, actions[i], before[i].name, before[i].version) && Parsed(call, action, c.0, c.1);
        assert At(call, before[i].name, before[i].version) == At(call, c.0, c.1);
      } else {
        forall i, n, v, m, w | 0 <= i < |actions| && Parsed(call, actions[i], n, v) && Parsed(call, action, m, w)
          ensures At(call, n, v) != At(call, m, w)
        {
          assert NormalOf(call, actions[i], before[i]);
          assert Folded(call, before[i]) == At(call, n, v);
        }
      }
  }

  lemma DeclarableStep(call: Call, actions: Grants)
    requires actions != []
    ensures var init, last := actions[..|actions| - 1], actions[|actions| - 1];
            Declarable(call, actions) <==>
              && Declarable(call, init) && Acceptable(call, last)
              && forall i, n, v, m, w :: 0 <= i < |init| && Parsed(call, init[i], n, v) && Parsed(call, last, m, w)
                   ==> At(call, n, v) != At(call, m, w)
  {
    hide Acceptable, Parsed, At;
    var init, last := actions[..|actions| - 1], actions[|actions| - 1];
    assert actions == init + [last];
  }

  /** A declaration is taken if and only if it is declarable, and then as its normal forms in order. */
  lemma {:induction false} NormalByFields(call: Call, actions: Grants)
    ensures NormalActions(call, actions).Success? <==> Declarable(call, actions)
    ensures NormalActions(call, actions).Success? ==> AllNormal(call, actions, NormalActions(call, actions).value)
  {
    hide NormalOne, Declarable, AllNormal, Acceptable, Parsed, At;
    if actions == [] {
      NothingDeclared(call);
    } else {
      var init, last := actions[..|actions| - 1], actions[|actions| - 1];
      assert actions == init + [last];
      NormalByFields(call, init);
      DeclarableStep(call, actions);
      if NormalActions(call, init).Success? {
        NormalStep(call, NormalActions(call, init).value, init, last);
      }
    }
  }

  lemma NothingDeclared(call: Call)
    ensures Declarable(call, []) && AllNormal(call, [], [])
  {}

  // ---------------------------------------------------------------- the stored grants

  /** Every stored grant is complete, and no two stand at the same coordinates. */
  ghost predicate Storable(call: Call, existing: Grants)
  {
    && (forall k :: 0 <= k < |existing| ==> Trim(existing[k].name) != "" && Trim(existing[k].version) != "")
    && (forall k, l :: 0 <= k < l < |existing| ==>
          At(call, Trim(existing[k].name), Trim(existing[k].version))
            != At(call, Trim(existing[l].name), Trim(existing[l].version)))
  }

  lemma StoredKey(call: Call, g: Grant)
    requires Sound(call)
    ensures KeyOf(call, g) == "" <==> (Trim(g.name) == "" || Trim(g.version) == "")
    ensures KeyOf(call, g) != "" ==> KeyOf(call, g) == At(call, Trim(g.name), Trim(g.version))
  {
    hide Trim;
    assert |Trim(g.name) + "\0" + Trim(g.version)| > 0;
  }

  ghost predicate StorableNext(call: Call, init: Grants, last: Grant)
  {
    && Trim(last.name) != "" && Trim(last.version) != ""
    && forall k :: 0 <= k < |init| ==>
         At(call, Trim(init[k].name), Trim(init[k].version)) != At(call, Trim(last.name), Trim(last.version))
  }

  lemma StorableStep(call: Call, existing: Grants)
    requires existing != []
    ensures Storable(call, existing) <==>
              && Storable(call, existing[..|existing| - 1])
              && StorableNext(call, existing[..|existing| - 1], existing[|existing| - 1])
  {
    hide At, Trim;
    assert existing == existing[..|existing| - 1] + [existing[|existing| - 1]];
  }

  lemma StoredApart(call: Call, init: Grants, byKey: Index, last: Grant)
    requires Sound(call) && Storable(call, init) && Indexed(call, init) == Success(byKey)
    ensures KeyOf(call, last) != "" && KeyOf(call, last) !in byKey <==> StorableNext(call, init, last)
  {
    hide KeyOf, At, Trim, Indexed, Sound;
    IndexedMeaning(call, init);
    StoredKey(call, last);
    forall k | 0 <= k < |init|
      ensures KeyOf(call, init[k]) == At(call, Trim(init[k].name), Trim(init[k].version))
    {
      StoredKey(call, init[k]);
    }
  }

  /** The stored grants are taken if and only if they are complete and apart. */
  lemma {:induction false} IndexedByFields(call: Call, existing: Grants)
    requires Sound(call)
    ensures Indexed(call, existing).Success? <==> Storable(call, existing)
  {
    hide KeyOf, At, Trim, Sound, Storable, StorableNext;
    if existing == [] {
      NothingStored(call);
    } else {
      var init, last := existing[..|existing| - 1], existing[|existing| - 1];
      IndexedByFields(call, init);
      StorableStep(call, existing);
      if Indexed(call, init).Success? {
        StoredApart(call, init, Indexed(call, init).value, last);
      }
    }
  }

  lemma NothingStored(call: Call)
    ensures Storable(call, [])
  {}

  predicate TightCoordinates(g: Grant)
  {
    g.name != "" && g.version != "" && Tight(g.name) && Tight(g.version)
  }

  /** Looking a declared action up in the index finds the stored grant at its coordinates. */
  lemma FoundByFields(call: Call, existing: Grants, g: Grant)
    requires Sound(call) && Indexed(call, existing).Success? && TightCoordinates(g)
    ensures (exists k: nat :: PriorAt(call, existing, k, g.name, g.version))
              <==> KeyOf(call, g) in Indexed(call, existing).value
    ensures forall k: nat :: PriorAt(call, existing, k, g.name, g.version) ==>
              && KeyOf(call, g) in Indexed(call, existing).value
              && Indexed(call, existing).value[KeyOf(call, g)] == existing[k]
  {
    hide KeyOf, At, Trim, Tight, Indexed, Sound;
    IndexedMeaning(call, existing);
    TightKey(call, g);
    forall k: nat | k < |existing|
      ensures PriorAt(call, existing, k, g.name, g.version) <==> KeyOf(call, existing[k]) == KeyOf(call, g)
    {
      StoredKey(call, existing[k]);
      StoredKey(call, g);
      TrimmedCoordinates(g);
    }
    if KeyOf(call, g) in Indexed(call, existing).value {
      var k: nat :| k < |existing| && existing[k] == Indexed(call, existing).value[KeyOf(call, g)];
      assert PriorAt(call, existing, k, g.name, g.version);
    }
  }

  lemma TrimmedCoordinates(g: Grant)
    requires TightCoordinates(g)
    ensures Trim(g.name) == g.name && Trim(g.version) == g.version
  {
    hide Trim;
    TrimTight(g.name);
    TrimTight(g.version);
  }

  // ---------------------------------------------------------------- restrictions

  /** A declared action that grants no more than the stored grant at its coordinates. */
  ghost predicate NoMore(call: Call, existing: Grants, g: Grant)
  {
    exists k: nat :: PriorAt(call, existing, k, g.name, g.version)
      && (g.revoked || (!existing[k].revoked && Trim(existing[k].digest) == g.digest))
  }

  /** A declared action that revokes an active stored grant. */
  ghost predicate TakesAway(call: Call, existing: Grants, g: Grant)
  {
    exists k: nat :: PriorAt(call, existing, k, g.name, g.version) && g.revoked && !existing[k].revoked
  }

  /** No declared action stands at the coordinates of stored grant `k`. */
  ghost predicate Dropped(call: Call, existing: Grants, grants: Grants, k: nat)
  {
    forall i :: 0 <= i < |grants| ==> !PriorAt(call, existing, k, grants[i].name, grants[i].version)
  }

  /** Nothing grants more than before, and something grants less. */
  ghost predicate OnlyRestricts(call: Call, existing: Grants, grants: Grants)
  {
    && (forall i :: 0 <= i < |grants| ==> NoMore(call, existing, grants[i]))
    && (|| (exists k: nat :: k < |existing| && Dropped(call, existing, grants, k))
        || (exists i :: 0 <= i < |grants| && TakesAway(call, existing, grants[i])))
  }

  lemma NormalShape(call: Call, actions: Grants, grants: Grants, i: nat)
    requires Sound(call) && AllNormal(call, actions, grants) && i < |grants|
    ensures TightCoordinates(grants[i]) && Trim(grants[i].digest) == grants[i].digest
  {
    hide Trim, Tight;
    assert NormalOf(call, actions[i], grants[i]);
    TrimTight(actions[i].digest);
  }

  lemma OneRestricts(call: Call, existing: Grants, g: Grant)
    requires Sound(call) && Indexed(call, existing).Success? && TightCoordinates(g) && Trim(g.digest) == g.digest
    ensures var byKey := Indexed(call, existing).value;
            && ((KeyOf(call, g) in byKey && (g.revoked || Unchanged(byKey[KeyOf(call, g)], g))) <==> NoMore(call, existing, g))
            && (RevokesAt(call, byKey, [g], 0) <==> TakesAway(call, existing, g))
  {
    hide KeyOf, At, Trim, Tight, Indexed, Sound, PriorAt;
    FoundByFields(call, existing, g);
  }

  lemma DroppedByFields(call: Call, existing: Grants, grants: Grants, k: nat)
    requires Sound(call) && Indexed(call, existing).Success? && k < |existing|
    requires forall i :: 0 <= i < |grants| ==> TightCoordinates(grants[i])
    ensures KeyOf(call, existing[k]) in Indexed(call, existing).value
    ensures !Declares(call, grants, KeyOf(call, existing[k])) <==> Dropped(call, existing, grants, k)
  {
    hide At, Trim, Tight, Indexed, Sound, KeyOf;
    IndexedMeaning(call, existing);
    forall i | 0 <= i < |grants|
      ensures PriorAt(call, existing, k, grants[i].name, grants[i].version) <==> KeyOf(call, grants[i]) == KeyOf(call, existing[k])
    {
      TightKey(call, grants[i]);
      StoredKey(call, existing[k]);
      StoredKey(call, grants[i]);
      TrimmedCoordinates(grants[i]);
    }
  }

  lemma RestrictsByFields(call: Call, existing: Grants, actions: Grants, grants: Grants)
    requires Sound(call) && Indexed(call, existing).Success? && AllNormal(call, actions, grants)
    ensures RestrictionOnly(call, Indexed(call, existing).value, grants) <==> OnlyRestricts(call, existing, grants)
  {
    hide At, Trim, Tight, Indexed, Sound, KeyOf, PriorAt, Declares, Dropped, NoMore, TakesAway, Unchanged, AllNormal;
    var byKey := Indexed(call, existing).value;
    forall i | 0 <= i < |grants|
      ensures TightCoordinates(grants[i])
      ensures (KeyOf(call, grants[i]) in byKey && (grants[i].revoked || Unchanged(byKey[KeyOf(call, grants[i])], grants[i])))
                <==> NoMore(call, existing, grants[i])
      ensures RevokesAt(call, byKey, grants, i) <==> TakesAway(call, existing, grants[i])
    {
      NormalShape(call, actions, grants, i);
      OneRestricts(call, existing, grants[i]);
    }
    IndexedMeaning(call, existing);
    forall k: nat | k < |existing|
      ensures KeyOf(call, existing[k]) in byKey
      ensures !Declares(call, grants, KeyOf(call, existing[k])) <==> Dropped(call, existing, grants, k)
    {
      DroppedByFields(call, existing, grants, k);
    }
    if key :| key in byKey && !Declares(call, grants, key) {
      var k: nat :| k < |existing| && existing[k] == byKey[key];
      assert Dropped(call, existing, grants, k);
    }
  }

  // ---------------------------------------------------------------- the merge

  /** The declared actions that are not revoked, in order. */
  function Actives(grants: Grants): (r: Grants)
    ensures |r| <= |grants|
  {
    if grants == [] then []
    else Actives(grants[..|grants| - 1]) + (if grants[|grants| - 1].revoked then [] else [grants[|grants| - 1]])
  }

  /** A revoked declared action names a stored grant, which is revoked already or by a known caller. */
  ghost predicate Revocable(call: Call, existing: Grants, g: Grant)
  {
    g.revoked ==>
      exists k: nat :: PriorAt(call, existing, k, g.name, g.version) && (existing[k].revoked || Trim(call.user) != "")
  }

  lemma PlanByFields(call: Call, existing: Grants, restriction: bool, g: Grant)
    requires Sound(call) && Indexed(call, existing).Success? && TightCoordinates(g) && Trim(g.digest) == g.digest
    requires restriction ==> NoMore(call, existing, g)
    ensures var plan := PlanOf(call, Indexed(call, existing).value, restriction, g);
            && (plan.Refuse? <==> !Revocable(call, existing, g))
            && (plan.Verify? <==> !g.revoked && !restriction)
  {
    hide KeyOf, At, Trim, Tight, Indexed, Sound, PriorAt;
    FoundByFields(call, existing, g);
  }

  ghost predicate Planned(call: Call, existing: Grants, restriction: bool, grants: Grants)
  {
    forall i :: 0 <= i < |grants| ==>
      && TightCoordinates(grants[i]) && Trim(grants[i].digest) == grants[i].digest
      && (restriction ==> NoMore(call, existing, grants[i]))
  }

  ghost predicate AllRevocable(call: Call, existing: Grants, grants: Grants)
  {
    forall i :: 0 <= i < |grants| ==> Revocable(call, existing, grants[i])
  }

  /** Nobody is asked under a restriction, and otherwise about every active declared action. */
  lemma {:induction false} AskedByFields(call: Call, existing: Grants, restriction: bool, grants: Grants)
    requires Sound(call) && Indexed(call, existing).Success? && Planned(call, existing, restriction, grants)
    ensures Refusal(call, Indexed(call, existing).value, restriction, grants).None? <==> AllRevocable(call, existing, grants)
    ensures Asked(call, Indexed(call, existing).value, restriction, grants) == if restriction then [] else Actives(grants)
  {
    hide PlanOf, Indexed, Sound, TightCoordinates, NoMore, Revocable, Trim;
    if grants != [] {
      var init, last := grants[..|grants| - 1], grants[|grants| - 1];
      assert grants == init + [last];
      AskedByFields(call, existing, restriction, init);
      PlanByFields(call, existing, restriction, last);
    }
  }

  /** The merge of a declaration into stored grants is taken. */
  ghost predicate Mergeable(call: Call, existing: Grants, desired: Grants, grants: Grants)
  {
    && Declarable(call, desired) && Storable(call, existing) && AllRevocable(call, existing, grants)
    && (OnlyRestricts(call, existing, grants) || Actives(grants) == [] || Replied(call, grants))
  }

  /** The catalogue answered for exactly the active declared actions. */
  predicate Replied(call: Call, grants: Grants)
  {
    call.verify(Actives(grants)).Success? && |call.verify(Actives(grants)).value| == |Actives(grants)|
  }

  lemma ConcludedByFields(call: Call, existing: Grants, desired: Grants, grants: Grants)
    requires Sound(call) && Declarable(call, desired) && AllNormal(call, desired, grants)
    requires NormalActions(call, desired) == Success(grants)
    ensures Merged(call, existing, desired).Success? <==> Mergeable(call, existing, desired, grants)
  {
    hide NormalActions, Declarable, AllNormal, Indexed, RestrictionOnly, OnlyRestricts, Refusal, Asked, Actives, Filled,
         Sound, Storable, AllRevocable;
    IndexedByFields(call, existing);
    if Storable(call, existing) {
      PlannedByFields(call, existing, desired, grants);
      RestrictsByFields(call, existing, desired, grants);
      AskedByFields(call, existing, RestrictionOnly(call, Indexed(call, existing).value, grants), grants);
    }
  }

  lemma PlannedByFields(call: Call, existing: Grants, desired: Grants, grants: Grants)
    requires Sound(call) && Indexed(call, existing).Success? && AllNormal(call, desired, grants)
    ensures Planned(call, existing, RestrictionOnly(call, Indexed(call, existing).value, grants), grants)
  {
    hide AllNormal, Sound, Indexed, RestrictionOnly, Trim, NoMore, TakesAway, Dropped, Tight;
    RestrictsByFields(call, existing, desired, grants);
    forall i | 0 <= i < |grants|
      ensures TightCoordinates(grants[i]) && Trim(grants[i].digest) == grants[i].digest
    {
      NormalShape(call, desired, grants, i);
    }
  }

  /** What declared action `i` becomes. */
  ghost predicate Becomes(call: Call, existing: Grants, grants: Grants, i: nat, m: Grant)
    requires i < |grants|
  {
    var g := grants[i];
    && (forall k: nat :: PriorAt(call, existing, k, g.name, g.version) && NoMore(call, existing, g) ==>
          m == if g.revoked && !existing[k].revoked
               then existing[k].(revoked := true, revokedBy := Trim(call.user), revokedAt := Some(call.now))
               else existing[k])
    && (!NoMore(call, existing, g) ==>
          && Replied(call, grants) && |Actives(grants[..i])| < |Actives(grants)|
          && m == call.verify(Actives(grants)).value[|Actives(grants[..i])|].(
                    revoked := false, revokedBy := "", revokedAt := None))
  }

  lemma SlotByFields(
    call: Call, existing: Grants, restriction: bool, grants: Grants, verified: Grants, i: nat)
    requires Sound(call) && Indexed(call, existing).Success? && Planned(call, existing, restriction, grants) && i < |grants|
    requires AllRevocable(call, existing, grants)
    requires !restriction && Actives(grants) != [] ==> Replied(call, grants) && verified == call.verify(Actives(grants)).value
    ensures Becomes(call, existing, grants, i, Slot(call, Indexed(call, existing).value, restriction, grants, verified, i))
  {
    hide Indexed, Sound, TightCoordinates, Trim, KeyOf, PriorAt, Asked, Refusal;
    var byKey := Indexed(call, existing).value;
    FoundByFields(call, existing, grants[i]);
    PlanByFields(call, existing, restriction, grants[i]);
    AskedByFields(call, existing, restriction, grants);
    assert Planned(call, existing, restriction, grants[..i]);
    AskedByFields(call, existing, restriction, grants[..i]);
    if PlanOf(call, byKey, restriction, grants[i]).Verify? {
      AskedAt(call, byKey, restriction, grants, i);
    }
    assert Revocable(call, existing, grants[i]);
  }

  /**
    The merge of declared actions into stored grants, on their fields. It is taken if and
    only if it is mergeable, and it then holds for each declared action, in order: the stored
    grant when the action grants no more, revoked by the caller now when it takes it away,
    and otherwise the answer of the catalogue for that very action, active and unrevoked.
   */
  lemma MergedByFields(call: Call, existing: Grants, desired: Grants, grants: Grants)
    requires Sound(call) && (Declarable(call, desired) ==> AllNormal(call, desired, grants))
    ensures Merged(call, existing, desired).Success? <==> Mergeable(call, existing, desired, grants)
    ensures Merged(call, existing, desired).Success? ==>
              var merged := Merged(call, existing, desired).value;
              && |merged| == |desired| && |grants| == |desired|
              && forall i :: 0 <= i < |grants| ==> Becomes(call, existing, grants, i, merged[i])
  {
    hide NormalActions, Declarable, AllNormal, Indexed, RestrictionOnly, Refusal, Asked, Actives, Sound, Storable,
         AllRevocable, Becomes, Planned, Slot, OnlyRestricts;
    NormalByFields(call, desired);
    if Declarable(call, desired) {
      NormalUnique(call, desired, grants, NormalActions(call, desired).value);
      ConcludedByFields(call, existing, desired, grants);
      if Merged(call, existing, desired).Success? {
        PlannedByFields(call, existing, desired, grants);
        var restriction := RestrictionOnly(call, Indexed(call, existing).value, grants);
        RestrictsByFields(call, existing, desired, grants);
        AskedByFields(call, existing, restriction, grants);
        var verified := if restriction || Actives(grants) == [] then [] else call.verify(Actives(grants)).value;
        forall i | 0 <= i < |grants|
          ensures Becomes(call, existing, grants, i, Merged(call, existing, desired).value[i])
        {
          SlotByFields(call, existing, restriction, grants, verified, i);
        }
      }
    }
  }

  lemma NormalUnique(call: Call, actions: Grants, a: Grants, b: Grants)
    requires AllNormal(call, actions, a) && AllNormal(call, actions, b)
    ensures a == b && |a| == |actions|
  {
    hide Trim;
    forall i | 0 <= i < |actions|
      ensures a[i] == b[i]
    {
      assert NormalOf(call, actions[i], a[i]) && NormalOf(call, actions[i], b[i]);
    }
  }

  // ---------------------------------------------------------------- who must authorise

  /** Stored grant `k` is the last complete one with the key of `g`. */
  ghost predicate LastPrior(call: Call, existing: Grants, g: Grant, k: nat)
  {
    && k < |existing| && KeyedAs(call, existing[k], g)
    && forall l: nat :: k < l < |existing| ==> !KeyedAs(call, existing[l], g)
  }

  predicate KeyedAs(call: Call, a: Grant, b: Grant)
  {
    && Trim(a.name) != "" && Trim(a.version) != "" && Trim(b.name) != "" && Trim(b.version) != ""
    && At(call, Trim(a.name), Trim(a.version)) == At(call, Trim(b.name), Trim(b.version))
  }

  lemma KeyedSame(call: Call, a: Grant, b: Grant)
    requires Sound(call)
    ensures KeyedAs(call, a, b) <==> KeyOf(call, a) != "" && KeyOf(call, a) == KeyOf(call, b)
  {
    hide KeyOf, At, Trim, Sound;
    StoredKey(call, a);
    StoredKey(call, b);
  }

  lemma {:induction false} LastByFields(call: Call, existing: Grants, g: Grant)
    requires Sound(call)
    ensures KeyOf(call, g) in Priors(call, existing) <==> exists k: nat :: LastPrior(call, existing, g, k)
    ensures forall k: nat :: LastPrior(call, existing, g, k) ==>
              KeyOf(call, g) in Priors(call, existing) && Priors(call, existing)[KeyOf(call, g)] == existing[k]
  {
    hide KeyOf, KeyedAs, Sound;
    if existing != [] {
      var init, last := existing[..|existing| - 1], existing[|existing| - 1];
      LastByFields(call, init, g);
      KeyedSame(call, last, g);
      if KeyedAs(call, last, g) {
        assert LastPrior(call, existing, g, |init|);
      } else {
        forall k: nat
          ensures LastPrior(call, existing, g, k) <==> LastPrior(call, init, g, k)
        {
          if LastPrior(call, init, g, k) {
            assert existing[k] == init[k];
          }
          if LastPrior(call, existing, g, k) {
            assert k != |init|;
            assert forall l: nat :: k < l < |init| ==> init[l] == existing[l];
          }
        }
      }
    }
  }

  /**
    A merged grant needs authorisation if and only if it is active and the last stored grant
    with its key is missing, revoked, or has a different digest.
   */
  lemma RequiringByFields(call: Call, existing: Grants, merged: Grants, g: Grant)
    requires Sound(call)
    ensures g in Requiring(call, Priors(call, existing), merged) <==>
              && g in merged && !g.revoked
              && forall k: nat :: LastPrior(call, existing, g, k) ==>
                   existing[k].revoked || Trim(existing[k].digest) != Trim(g.digest)
  {
    hide Requiring, Priors, KeyOf, Trim, KeyedAs, LastPrior, Sound;
    RequiringMeaning(call, Priors(call, existing), merged, g);
    LastByFields(call, existing, g);
  }

  // ---------------------------------------------------------------- errors

  /** Why a declared action is refused behind those in front of it, in the order of the checks. */
  ghost predicate ActionRefused(call: Call, before: Grants, action: Grant, e: GrantError)
  {
    match e
    case BadAction => call.parse(action.name, action.version) == None
    case DuplicateAction => Repeats(call, before, action)
    case BadDigest =>
      && call.parse(action.name, action.version).Some? && !Repeats(call, before, action)
      && !action.revoked && !call.isDigest(Trim(action.digest))
    case _ => false
  }

  /** An action in front has the same coordinates. */
  ghost predicate Repeats(call: Call, before: Grants, action: Grant)
  {
    exists i, n, v, m, w :: 0 <= i < |before| && Parsed(call, before[i], n, v) && Parsed(call, action, m, w)
      && At(call, n, v) == At(call, m, w)
  }

  /** The first action that is refused; all in front of it are declarable. */
  ghost predicate FirstRefused(call: Call, actions: Grants, i: int, e: GrantError)
  {
    0 <= i < |actions| && Declarable(call, actions[..i]) && ActionRefused(call, actions[..i], actions[i], e)
  }

  lemma RepeatsIs(call: Call, before: Grants, actions: Grants, action: Grant, g: Grant)
    requires AllNormal(call, actions, before) && Parsed(call, action, g.name, g.version)
    ensures HasKey(call, before, Folded(call, g)) <==> Repeats(call, actions, action)
  {
    hide Trim;
    forall i | 0 <= i < |actions|
      ensures Parsed(call, actions[i], before[i].name, before[i].version)
    {
      assert NormalOf(call, actions[i], before[i]);
    }
    assert forall i :: 0 <= i < |before| ==> Folded(call, before[i]) == At(call, before[i].name, before[i].version);
  }

  lemma NormalOneRefuses(call: Call, before: Grants, actions: Grants, action: Grant)
    requires AllNormal(call, actions, before) && NormalOne(call, before, action).Failure?
    ensures ActionRefused(call, actions, action, NormalOne(call, before, action).error)
  {
    hide Trim, HasKey, Repeats;
    if call.parse(action.name, action.version).Some? {
      var c := call.parse(action.name, action.version).value;
      RepeatsIs(call, before, actions, action, Grant(c.0, c.1, Trim(action.digest), action.revoked, "", None, "", None));
    }
  }

  lemma {:induction false} NormalRefuses(call: Call, actions: Grants) returns (i: int)
    requires NormalActions(call, actions).Failure?
    ensures FirstRefused(call, actions, i, NormalActions(call, actions).error)
  {
    hide NormalOne, Declarable, AllNormal, ActionRefused;
    var init, last := actions[..|actions| - 1], actions[|actions| - 1];
    if NormalActions(call, init).Failure? {
      i := NormalRefuses(call, init);
      assert init[..i] == actions[..i];
    } else {
      NormalByFields(call, init);
      NormalOneRefuses(call, NormalActions(call, init).value, init, last);
      i := |init|;
    }
  }

  /** The first stored grant that is incomplete, or at the coordinates of one in front. */
  ghost predicate FirstUnstorable(call: Call, existing: Grants, k: int, e: GrantError)
  {
    && 0 <= k < |existing| && Storable(call, existing[..k])
    && match e
       case InvalidStored => Trim(existing[k].name) == "" || Trim(existing[k].version) == ""
       case DuplicateStored =>
         && Trim(existing[k].name) != "" && Trim(existing[k].version) != ""
         && !StorableNext(call, existing[..k], existing[k])
       case _ => false
  }

  lemma {:induction false} IndexedRefuses(call: Call, existing: Grants) returns (k: int)
    requires Sound(call) && Indexed(call, existing).Failure?
    ensures FirstUnstorable(call, existing, k, Indexed(call, existing).error)
  {
    hide KeyOf, At, Trim, Sound, Storable, StorableNext;
    var init, last := existing[..|existing| - 1], existing[|existing| - 1];
    if Indexed(call, init).Failure? {
      k := IndexedRefuses(call, init);
      assert init[..k] == existing[..k];
    } else {
      IndexedByFields(call, init);
      StoredApart(call, init, Indexed(call, init).value, last);
      StoredKey(call, last);
      k := |init|;
    }
  }

  /** The first revocation that is refused: of nothing stored, or of an active grant by nobody. */
  ghost predicate FirstUnrevocable(call: Call, existing: Grants, grants: Grants, i: int, e: GrantError)
  {
    && 0 <= i < |grants| && AllRevocable(call, existing, grants[..i]) && grants[i].revoked
    && match e
       case UnknownRevocation => forall k: nat :: !PriorAt(call, existing, k, grants[i].name, grants[i].version)
       case CallerRequired =>
         && Trim(call.user) == ""
         && exists k: nat :: PriorAt(call, existing, k, grants[i].name, grants[i].version) && !existing[k].revoked
       case _ => false
  }

  lemma PlanRefuses(call: Call, existing: Grants, restriction: bool, grants: Grants, i: nat)
    requires Sound(call) && Indexed(call, existing).Success? && i < |grants| && TightCoordinates(grants[i])
    requires AllRevocable(call, existing, grants[..i])
    requires PlanOf(call, Indexed(call, existing).value, restriction, grants[i]).Refuse?
    ensures FirstUnrevocable(
              call, existing, grants, i, PlanOf(call, Indexed(call, existing).value, restriction, grants[i]).error)
  {
    hide KeyOf, At, Trim, Tight, Indexed, Sound, PriorAt, AllRevocable;
    FoundByFields(call, existing, grants[i]);
  }

  lemma {:induction false} RefusalIs(call: Call, existing: Grants, restriction: bool, grants: Grants) returns (i: int)
    requires Sound(call) && Indexed(call, existing).Success? && Planned(call, existing, restriction, grants)
    requires Refusal(call, Indexed(call, existing).value, restriction, grants).Some?
    ensures FirstUnrevocable(
              call, existing, grants, i, Refusal(call, Indexed(call, existing).value, restriction, grants).value)
  {
    hide PlanOf, Indexed, Sound, TightCoordinates, NoMore, AllRevocable, Trim, PriorAt;
    var init := grants[..|grants| - 1];
    assert forall j :: 0 <= j < |init| ==> init[j] == grants[j];
    if Refusal(call, Indexed(call, existing).value, restriction, init).Some? {
      i := RefusalIs(call, existing, restriction, init);
      assert init[..i] == grants[..i];
    } else {
      AskedByFields(call, existing, restriction, init);
      PlanRefuses(call, existing, restriction, grants, |init|);
      i := |init|;
    }
  }

  /**
    Why a merge is refused, checked in this order: the declaration, the stored grants, the
    revocations, and verification, whose own error is passed on.
   */
  lemma MergeRefused(call: Call, existing: Grants, desired: Grants, grants: Grants)
    requires Sound(call) && (Declarable(call, desired) ==> AllNormal(call, desired, grants))
    requires Merged(call, existing, desired).Failure?
    ensures var e := Merged(call, existing, desired).error;
            if !Declarable(call, desired) then exists i :: FirstRefused(call, desired, i, e)
            else if !Storable(call, existing) then exists k :: FirstUnstorable(call, existing, k, e)
            else if !AllRevocable(call, existing, grants) then exists i :: FirstUnrevocable(call, existing, grants, i, e)
            else if call.verify(Actives(grants)).Failure? then e == call.verify(Actives(grants)).error
            else e == CountMismatch && |call.verify(Actives(grants)).value| != |Actives(grants)|
  {
    hide NormalActions, Declarable, AllNormal, Indexed, RestrictionOnly, OnlyRestricts, Refusal, Asked, Actives, Filled,
         Sound, Storable, AllRevocable, FirstRefused, FirstUnstorable, FirstUnrevocable, Planned;
    NormalByFields(call, desired);
    if NormalActions(call, desired).Failure? {
      var i := NormalRefuses(call, desired);
    } else {
      NormalUnique(call, desired, grants, NormalActions(call, desired).value);
      IndexedByFields(call, existing);
      if Indexed(call, existing).Failure? {
        var k := IndexedRefuses(call, existing);
      } else {
        var restriction := RestrictionOnly(call, Indexed(call, existing).value, grants);
        PlannedByFields(call, existing, desired, grants);
        AskedByFields(call, existing, restriction, grants);
        if Refusal(call, Indexed(call, existing).value, restriction, grants).Some? {
          var i := RefusalIs(call, existing, restriction, grants);
        }
      }
    }
  }
}
