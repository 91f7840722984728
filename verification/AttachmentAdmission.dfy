/**
  Adopting a Project for attachment storage: a bounded read, write and re-read loop against
  a server on which anybody else may write between any two calls.
 */
module AttachmentAdmission {
  import opened Wrappers
  import opened Text

  const ORG := "org-uuid"
  const WORKSPACE := "workspace-uuid"
  const FINALIZER := "attachment-storage"
  const MAX_ATTEMPTS := 3

  /** `rest` stands for the spec, the status and all other metadata. */
  datatype Project = Project(
    name: string, uid: string, deleting: bool, annotations: map<string, string>, finalizers: seq<string>,
    version: nat, rest: string)

  datatype Tenant = Tenant(org: string, workspace: string)

  datatype AdmissionError = Invalid | Convergence | ScopeConflict

  datatype ApiError = Conflict | OtherError

  function Annotation(p: Project, key: string): string { if key in p.annotations then p.annotations[key] else "" }

  /** validateProjectAttachmentAdmissionIdentity. */
  function Identity(p: Project, t: Tenant, name: string): Result<(), AdmissionError>
  {
    if Trim(p.name) != name || Trim(p.uid) == "" then Failure(Convergence)
    else if p.deleting then Failure(ScopeConflict)
    else if Trim(Annotation(p, ORG)) != "" && Trim(Annotation(p, ORG)) != t.org then Failure(ScopeConflict)
    else if Trim(Annotation(p, WORKSPACE)) != "" && Trim(Annotation(p, WORKSPACE)) != t.workspace
    then Failure(ScopeConflict)
    else Success(())
  }

  /** projectAttachmentAdmissionReady. */
  predicate Ready(p: Project, t: Tenant)
  {
    && Trim(p.uid) != "" && FINALIZER in p.finalizers
    && Trim(Annotation(p, ORG)) == t.org && Trim(Annotation(p, WORKSPACE)) == t.workspace
  }

  /** The only write the loop makes, the version aside. */
  function Adopted(p: Project, t: Tenant): Project
  {
    p.(annotations := p.annotations[ORG := t.org][WORKSPACE := t.workspace],
       finalizers := if FINALIZER in p.finalizers then p.finalizers else p.finalizers + [FINALIZER])
  }

  predicate Authenticated(t: Tenant)
  {
    t.org != "" && t.workspace != "" && Trim(t.org) == t.org && Trim(t.workspace) == t.workspace
  }

  // ---------------------------------------------------------------- the server

  datatype Write = Write(before: Project, after: Project)

  /** A write for tenant `t`, based on the object as it then was and allowed by it. */
  predicate Guarded(w: Write, t: Tenant, name: string)
  {
    && Identity(w.before, t, name).Success?
    && w.after == Adopted(w.before, t).(version := w.after.version)
    && w.after.version > w.before.version
  }

  class Server {
    var stored: Option<Project>
    /** No version handed out so far is above this. */
    var clock: nat
    /** The objects this caller was given and the writes it made, oldest first. */
    var seen: seq<Project>
    var writes: seq<Write>
    /** Nobody else writes and no call fails. */
    const quiet: bool

    constructor (stored: Option<Project>, quiet: bool)
      ensures Valid() && this.stored == stored && this.quiet == quiet && seen == [] && writes == []
    {
      this.stored := stored;
      this.clock := match stored case None => 0 case Some(p) => p.version;
      this.seen := [];
      this.writes := [];
      this.quiet := quiet;
    }

    /** A version belongs to one object: whatever was read is stored as long as its version is. */
    ghost predicate Valid()
      reads this
    {
      && (stored.Some? ==> stored.value.version <= clock)
      && (forall i :: 0 <= i < |seen| ==> seen[i].version <= clock)
      && (forall i :: 0 <= i < |seen| && stored.Some? && seen[i].version == stored.value.version ==>
            seen[i] == stored.value)
    }

    /** Other writers: any number of changes, deletions and re-creations, each under a new version. */
    method Interfere()
      requires Valid()
      modifies this`stored, this`clock
      ensures Valid()
      ensures quiet ==> stored == old(stored)
    {
      if quiet {
        return;
      }
      var next: Option<Project> := *;
      match next
      case None => stored := None;
      case Some(p) =>
        if p.version > clock {
          clock := p.version;
          stored := next;
        }
    }

    method Get() returns (r: Result<Project, ApiError>)
      requires Valid()
      modifies this`stored, this`clock, this`seen
      ensures Valid()
      ensures r.Success? ==> seen == old(seen) + [r.value] && stored == Some(r.value)
      ensures r.Failure? ==> seen == old(seen)
      ensures quiet ==> stored == old(stored) && (old(stored).Some? ==> r.Success?)
    {
      Interfere();
      var failed: bool, fault: ApiError := *, *;
      if failed && !quiet {
        return Failure(fault);
      }
      match stored
      case None => return Failure(OtherError);
      case Some(p) =>
        seen := seen + [p];
        return Success(p);
    }

    /** Optimistic concurrency: a stale version is refused; the answer may still be lost. */
    method Update(next: Project) returns (r: Result<(), ApiError>)
      requires Valid()
      modifies this`stored, this`clock, this`writes
      ensures Valid()
      ensures r.Success? ==> |writes| == |old(writes)| + 1
      ensures writes == old(writes)
        || (|writes| == |old(writes)| + 1 && writes[..|old(writes)|] == old(writes)
            && var w := writes[|old(writes)|];
               && w.before.version == next.version && w.after.version > next.version
               && w.after == next.(version := w.after.version)
               && (forall i :: 0 <= i < |seen| && seen[i].version == next.version ==> seen[i] == w.before)
               && (quiet ==> stored == Some(w.after)))
      ensures quiet && old(stored).Some? && old(stored).value.version == next.version ==> r.Success?
    {
      Interfere();
      var failed: bool, fault: ApiError, lost: bool := *, *, *;
      if failed && !quiet {
        return Failure(fault);
      }
      match stored
      case None => return Failure(OtherError);
      case Some(before) =>
        if before.version != next.version {
          return Failure(Conflict);
        }
        clock := clock + 1;
        var after := next.(version := clock);
        writes := writes + [Write(before, after)];
        stored := Some(after);
        if lost && !quiet {
          return Failure(fault);
        }
        return Success(());
    }
  }

  /** An object that passes the identity check but is not ready does need a change. */
  lemma NotReadyNeedsChange(p: Project, t: Tenant, name: string)
    requires Authenticated(t) && Identity(p, t, name).Success? && !Ready(p, t)
    ensures Annotation(p, ORG) != t.org || Annotation(p, WORKSPACE) != t.workspace || FINALIZER !in p.finalizers
  {}

  lemma AdoptedIsReady(p: Project, t: Tenant, name: string)
    requires Authenticated(t) && Identity(p, t, name).Success?
    ensures Ready(Adopted(p, t), t) && Identity(Adopted(p, t), t, name).Success?
    ensures Adopted(Adopted(p, t), t) == Adopted(p, t)
  {
    assert ORG != WORKSPACE by { assert |ORG| != |WORKSPACE|; }
    var once := Adopted(p, t);
    assert once.annotations[ORG := t.org][WORKSPACE := t.workspace] == once.annotations;
  }

  /** The edits on a copy of the object that was read. */
  method Adopt(current: Project, t: Tenant, ghost name: string) returns (next: Project)
    requires Authenticated(t) && Identity(current, t, name).Success? && !Ready(current, t)
    ensures next == Adopted(current, t)
  {
    hide Identity, Ready;
    NotReadyNeedsChange(current, t, name);
    AdoptedByParts(current, t);
    var annotations, finalizers := current.annotations, current.finalizers;
    var changed := false;
    if Annotation(current, ORG) != t.org {
      annotations := annotations[ORG := t.org];
      changed := true;
    }
    if Annotation(current, WORKSPACE) != t.workspace {
      annotations := annotations[WORKSPACE := t.workspace];
      changed := true;
    }
    if FINALIZER !in finalizers {
      finalizers := finalizers + [FINALIZER];
      changed := true;
    }
    if !changed {
      assert false;
    }
    return current.(annotations := annotations, finalizers := finalizers);
  }

  /** What an object that was read last and settles the request promises. */
  predicate Admitted(seen: seq<Project>, p: Project, t: Tenant, name: string)
  {
    seen != [] && seen[|seen| - 1] == p && Identity(p, t, name).Success? && Ready(p, t)
  }

  /** The result when nobody interferes. */
  ghost predicate Undisturbed(
    before: Option<Project>, after: Option<Project>, t: Tenant, name: string, r: Result<Project, AdmissionError>)
  {
    before.Some? ==>
      var p := before.value;
      && (r.Success? <==> Identity(p, t, name).Success?)
      && (r.Failure? ==> after == before)
      && (r.Success? ==>
            after == Some(r.value)
            && (if Ready(p, t) then r.value == p else r.value == Adopted(p, t).(version := r.value.version)))
  }

  /** One attempt; None asks for another. */
  method Attempt(server: Server, t: Tenant, name: string) returns (r: Option<Result<Project, AdmissionError>>)
    requires server.Valid() && Authenticated(t)
    modifies server
    ensures server.Valid() && |server.seen| >= |old(server.seen)|
    ensures server.writes == old(server.writes)
      || (|server.writes| == |old(server.writes)| + 1 && server.writes[..|old(server.writes)|] == old(server.writes)
          && Guarded(server.writes[|old(server.writes)|], t, name))
    ensures r.Some? && r.value.Success? ==>
              |server.seen| > |old(server.seen)| && Admitted(server.seen, r.value.value, t, name)
    ensures r != Some(Failure(Invalid))
    ensures server.quiet && old(server.stored).Some? ==>
              r.Some? && Undisturbed(old(server.stored), server.stored, t, name, r.value)
    ensures server.quiet && r.Some? && r.value.Failure? ==> server.writes == old(server.writes)
  {
    hide Identity, Ready, Adopted, Authenticated;
    var got := server.Get();
    match got
    case Failure(_) => return Some(Failure(Convergence));
    case Success(current) =>
      NeverInvalid(current, t, name);
      match Identity(current, t, name) {
        case Failure(e) => return Some(Failure(e));
        case Success(_) =>
      }
      if Ready(current, t) {
        return Some(Success(current));
      }
      AdoptedIsReady(current, t, name);
      var next := Adopt(current, t, name);
      AdoptedKeepsVersion(current, t);
      assert server.seen[|server.seen| - 1] == current;
      var updated := server.Update(next);
      match updated {
        case Failure(Conflict) => return None;
        case Failure(OtherError) => return Some(Failure(Convergence));
        case Success(_) =>
      }
      var persisted := server.Get();
      match persisted {
        case Failure(Conflict) => return None;
        case Failure(OtherError) => return Some(Failure(Convergence));
        case Success(after) =>
          NeverInvalid(after, t, name);
          VersionIsInert(Adopted(current, t), t, name, after.version);
          match Identity(after, t, name) {
            case Failure(e) => return Some(Failure(e));
            case Success(_) =>
          }
          if Ready(after, t) {
            return Some(Success(after));
          }
          return None;
      }
  }

  lemma AdoptedKeepsVersion(p: Project, t: Tenant)
    ensures Adopted(p, t).version == p.version
  {}

  /**
    ensureProjectAttachmentAdmission. Whatever others write in between: at most three
    writes, each guarded by the object it replaces; success only with a re-read object that
    is ready. When nobody interferes, the identity check alone decides.
   */
  method EnsureAdmission(server: Server, org: string, workspace: string, name: string, uid: string)
    returns (r: Result<Project, AdmissionError>)
    requires server.Valid()
    modifies server
    ensures server.Valid()
    ensures |old(server.writes)| <= |server.writes| <= |old(server.writes)| + 3
    ensures server.writes[..|old(server.writes)|] == old(server.writes)
    ensures forall i :: |old(server.writes)| <= i < |server.writes| ==>
              Guarded(server.writes[i], Tenant(Trim(org), Trim(workspace)), Trim(name))
    ensures r.Success? ==>
              |server.seen| > |old(server.seen)|
              && Admitted(server.seen, r.value, Tenant(Trim(org), Trim(workspace)), Trim(name))
    ensures Trim(org) == "" || Trim(workspace) == "" || Trim(name) == "" || Trim(uid) == "" <==>
              r == Failure(Invalid)
    ensures r == Failure(Invalid) ==> server.seen == old(server.seen) && server.writes == old(server.writes)
    ensures server.quiet && r != Failure(Invalid) ==>
              Undisturbed(old(server.stored), server.stored, Tenant(Trim(org), Trim(workspace)), Trim(name), r)
  {
    hide Identity, Ready, Trim, Adopted, Guarded, Undisturbed, Admitted;
    var t := Tenant(Trim(org), Trim(workspace));
    var wanted := Trim(name);
    if t.org == "" || t.workspace == "" || wanted == "" || Trim(uid) == "" {
      return Failure(Invalid);
    }
    TrimTight(org);
    TrimTight(workspace);
    ghost var seenBefore, writtenBefore := server.seen, server.writes;
    for attempt := 0 to MAX_ATTEMPTS
      invariant server.Valid() && |seenBefore| <= |server.seen|
      invariant |writtenBefore| <= |server.writes| <= |writtenBefore| + attempt
      invariant server.writes[..|writtenBefore|] == writtenBefore
      invariant forall i :: |writtenBefore| <= i < |server.writes| ==> Guarded(server.writes[i], t, wanted)
      invariant server.quiet && old(server.stored).Some? ==> attempt == 0 && server.stored == old(server.stored)
    {
      var settled := Attempt(server, t, wanted);
      match settled
      case None =>
      case Some(outcome) =>
        assert server.quiet ==> Undisturbed(old(server.stored), server.stored, t, wanted, outcome) by {
          NothingStored(old(server.stored), server.stored, t, wanted, outcome);
        }
        return outcome;
    }
    NothingStored(old(server.stored), server.stored, t, wanted, Failure(ScopeConflict));
    return Failure(ScopeConflict);
  }

  lemma NothingStored(
    before: Option<Project>, after: Option<Project>, t: Tenant, name: string, r: Result<Project, AdmissionError>)
    ensures before.None? ==> Undisturbed(before, after, t, name, r)
  {}

  lemma NeverInvalid(p: Project, t: Tenant, name: string)
    ensures Identity(p, t, name) != Failure(Invalid)
  {}

  lemma AdoptedByParts(p: Project, t: Tenant)
    ensures var a := if Annotation(p, ORG) != t.org then p.annotations[ORG := t.org] else p.annotations;
            var b := if Annotation(p, WORKSPACE) != t.workspace then a[WORKSPACE := t.workspace] else a;
            t.org != "" && t.workspace != "" ==> b == p.annotations[ORG := t.org][WORKSPACE := t.workspace]
  {
    assert |ORG| != |WORKSPACE|;
  }

  lemma VersionIsInert(p: Project, t: Tenant, name: string, version: nat)
    ensures Identity(p.(version := version), t, name) == Identity(p, t, name)
    ensures Ready(p.(version := version), t) <==> Ready(p, t)
  {}

  // ---------------------------------------------------------------- competing tenants

  /** A guarded write of some authenticated tenant. */
  ghost predicate TenantStep(before: Project, after: Project, name: string)
  {
    exists t: Tenant :: Authenticated(t) && Guarded(Write(before, after), t, name)
  }

  /** A history in which every change is such a write. */
  ghost predicate Competing(history: seq<Project>, name: string)
  {
    forall i :: 0 < i < |history| ==> TenantStep(history[i - 1], history[i], name)
  }

  lemma OneOwner(p: Project, owner: Tenant, other: Tenant, name: string)
    requires Authenticated(owner) && Ready(p, owner) && Authenticated(other) && Identity(p, other, name).Success?
    ensures other == owner
  {}

  lemma GuardedKeepsOwner(w: Write, owner: Tenant, other: Tenant, name: string)
    requires Authenticated(owner) && Ready(w.before, owner) && Authenticated(other) && Guarded(w, other, name)
    ensures other == owner && Ready(w.after, owner) && w.after.rest == w.before.rest
  {
    hide Identity, Ready;
    OneOwner(w.before, owner, other, name);
    AdoptedIsReady(w.before, owner, name);
    VersionIsInert(Adopted(w.before, owner), owner, name, w.after.version);
  }

  lemma LastWriter(before: Project, after: Project, name: string) returns (t: Tenant)
    requires TenantStep(before, after, name)
    ensures Authenticated(t) && Guarded(Write(before, after), t, name)
  {
    hide Guarded, Authenticated;
    t :| Authenticated(t) && Guarded(Write(before, after), t, name);
  }

  /**
    However many tenants run the loop against one Project, the first to be admitted stays
    its owner, and everything outside the two annotations and the finalizers is untouched.
   */
  lemma {:induction false} FirstOwnerStays(history: seq<Project>, owner: Tenant, name: string)
    requires history != [] && Competing(history, name) && Authenticated(owner) && Ready(history[0], owner)
    ensures var last := history[|history| - 1];
            && Ready(last, owner) && last.rest == history[0].rest
            && forall other: Tenant :: Authenticated(other) && Identity(last, other, name).Success? ==> other == owner
    decreases |history|
  {
    hide Identity, Ready, Guarded, Authenticated, TenantStep;
    var last := history[|history| - 1];
    if |history| > 1 {
      var init := history[..|history| - 1];
      var t := LastWriter(init[|init| - 1], last, name);
      FirstOwnerStays(init, owner, name);
      GuardedKeepsOwner(Write(init[|init| - 1], last), owner, t, name);
    }
    forall other: Tenant | Authenticated(other) && Identity(last, other, name).Success?
      ensures other == owner
    {
      OneOwner(last, owner, other, name);
    }
  }

  // ---------------------------------------------------------------- on the fields of the object

  /** The annotation is missing, blank, or says the value up to white space. */
  predicate Agrees(p: Project, key: string, value: string)
  {
    key !in p.annotations || Trim(p.annotations[key]) == "" || Trim(p.annotations[key]) == value
  }

  /** The annotation says the value up to white space. */
  predicate Says(p: Project, key: string, value: string)
  {
    key in p.annotations && Trim(p.annotations[key]) == value
  }

  /**
    Who may adopt an object: a tenant that names it, unless it is being deleted or an
    annotation says another tenant; an object without name or UID is another error.
   */
  lemma AdoptableExactly(p: Project, t: Tenant, name: string)
    ensures Identity(p, t, name).Success? <==>
              && Trim(p.name) == name && Trim(p.uid) != "" && !p.deleting
              && Agrees(p, "org-uuid", t.org) && Agrees(p, "workspace-uuid", t.workspace)
    ensures Identity(p, t, name) == Failure(Convergence) <==> Trim(p.name) != name || Trim(p.uid) == ""
    ensures Identity(p, t, name) == Failure(ScopeConflict) <==>
              && Trim(p.name) == name && Trim(p.uid) != ""
              && (p.deleting || !Agrees(p, "org-uuid", t.org) || !Agrees(p, "workspace-uuid", t.workspace))
  {
    hide Trim;
    TrimTight("");
  }

  /** An object that is returned: named, alive, with the finalizer and both annotations of the tenant. */
  lemma AdmittedByFields(seen: seq<Project>, p: Project, t: Tenant, name: string)
    requires Authenticated(t)
    ensures Admitted(seen, p, t, name) <==>
              && seen != [] && seen[|seen| - 1] == p && Trim(p.name) == name && Trim(p.uid) != "" && !p.deleting
              && "attachment-storage" in p.finalizers
              && Says(p, "org-uuid", t.org) && Says(p, "workspace-uuid", t.workspace)
  {
    hide Trim;
    TrimTight("");
  }

  /** A write: of an object the tenant may adopt, and exactly both annotations and the finalizer are added. */
  lemma GuardedByFields(w: Write, t: Tenant, name: string)
    requires Guarded(w, t, name)
    ensures Trim(w.before.name) == name && Trim(w.before.uid) != "" && !w.before.deleting
    ensures Agrees(w.before, "org-uuid", t.org) && Agrees(w.before, "workspace-uuid", t.workspace)
    ensures w.after.version > w.before.version
    ensures w.after.name == w.before.name && w.after.uid == w.before.uid && w.after.deleting == w.before.deleting
    ensures w.after.rest == w.before.rest
    ensures w.after.annotations.Keys == w.before.annotations.Keys + {"org-uuid", "workspace-uuid"}
    ensures w.after.annotations["org-uuid"] == t.org && w.after.annotations["workspace-uuid"] == t.workspace
    ensures forall key :: key in w.before.annotations && key != "org-uuid" && key != "workspace-uuid" ==>
              w.after.annotations[key] == w.before.annotations[key]
    ensures if "attachment-storage" in w.before.finalizers then w.after.finalizers == w.before.finalizers
            else w.after.finalizers == w.before.finalizers + ["attachment-storage"]
  {
    hide Trim;
    assert |ORG| != |WORKSPACE|;
    AdoptableExactly(w.before, t, name);
  }
}
