/** Target narrowing: what a scoped caller may publish or kill, in the textual form
    Salt receives. */
module RbacTargets {
  import opened Options
  import opened Text
  import opened RbacCatalog
  import opened RbacScopes

  datatype TargetType =
    | ListType | GlobType | GroupType | GrainType | CompoundType | NodegroupType | OtherType(name: string)

  datatype Refusal = NeedsFleet | UnknownType | EmptyIntersection | OutOfScope

  /** The tuple constrain_target_verbose returns, or AuthzDenied. */
  datatype Narrowed =
    | Denied(reason: Refusal)
    | Published(tgt: string, kind: TargetType, requested: Option<set<Id>>, hit: Option<set<Id>>)

  /** The snapshot ids a target names, when its type can be evaluated locally. */
  function Requested(w: World, tgt: string, kind: TargetType): (r: Option<set<Id>>)
    ensures r.Some? ==> r.value <= w.snapshot
  {
    match kind
    case ListType => Some(Names(tgt) * w.snapshot)
    case GlobType => Some(set m | m in w.snapshot && w.globs(m, tgt))
    case GroupType => Some(GroupMembers(w.jobGroups, tgt) * w.snapshot)
    case GrainType => Some(set m | m in w.snapshot && w.grains(m, tgt))
    case _ => None
  }

  /** What a target requests, type by type; a type that only Salt can evaluate requests
      nothing that could be narrowed. */
  lemma RequestedMeans(w: World, tgt: string, kind: TargetType, m: Id)
    ensures Requested(w, tgt, kind).Some? <==> kind in {ListType, GlobType, GroupType, GrainType}
    ensures Requested(w, tgt, kind).Some? ==>
              (m in Requested(w, tgt, kind).value <==>
                 m in w.snapshot && match kind
                 case ListType => m != "" && exists piece :: piece in Split(tgt, ',') && Strip(piece) == m
                 case GlobType => w.globs(m, tgt)
                 case GroupType => tgt in w.jobGroups && m in w.jobGroups[tgt]
                 case _ => w.grains(m, tgt))
  {
  }

  /** constrain_target_verbose */
  function Narrow(w: World, entries: seq<Entry>, perm: Perm, tgt: string, kind: TargetType): Narrowed {
    if HasFleet(entries, perm) then Published(tgt, kind, None, None)
    else if kind.CompoundType? || kind.NodegroupType? then Denied(NeedsFleet)
    else if kind.OtherType? then Denied(UnknownType)
    else
      var requested := Requested(w, tgt, kind).value;
      var hit := requested * MinionsWith(w, entries, perm);
      if hit == {} then Denied(EmptyIntersection)
      else Published(Join(Sorted(hit), ','), ListType, Some(requested), Some(hit))
  }

  datatype Kill = KillDenied(reason: Refusal) | KillTarget(tgt: string, kind: TargetType)

  /** constrain_kill */
  function NarrowKill(w: World, entries: seq<Entry>, tgt: string, kind: TargetType): Kill {
    if HasFleet(entries, JobKill) then KillTarget(tgt, kind)
    else if kind.CompoundType? || kind.NodegroupType? || kind.GrainType? then KillDenied(NeedsFleet)
    else if kind.GlobType? && Strip(tgt) == "*" then KillDenied(NeedsFleet)
    else if kind.OtherType? then KillDenied(UnknownType)
    else
      var resolved := Requested(w, tgt, kind).value;
      if resolved == {} || !(resolved <= MinionsWith(w, entries, JobKill)) then KillDenied(OutOfScope)
      else KillTarget(Join(Sorted(resolved), ','), ListType)
  }

  /** A fleet grant keeps the target as it is. Without one, what only Salt can evaluate
      needs a fleet grant, for a kill grain targets and the bare star too, and each
      refusal says which it was. */
  lemma RefusalsMean(w: World, entries: seq<Entry>, perm: Perm, tgt: string, kind: TargetType)
    ensures HasFleet(entries, perm) ==> Narrow(w, entries, perm, tgt, kind) == Published(tgt, kind, None, None)
    ensures HasFleet(entries, JobKill) ==> NarrowKill(w, entries, tgt, kind) == KillTarget(tgt, kind)
    ensures !HasFleet(entries, perm) ==>
              var r := Narrow(w, entries, perm, tgt, kind);
              && (r == Denied(NeedsFleet) <==> kind in {CompoundType, NodegroupType})
              && (r == Denied(UnknownType) <==> kind.OtherType?)
              && r != Denied(OutOfScope)
    ensures !HasFleet(entries, JobKill) ==>
              var k := NarrowKill(w, entries, tgt, kind);
              && (k == KillDenied(NeedsFleet) <==> kind in {CompoundType, NodegroupType, GrainType}
                                                   || (kind == GlobType && Strip(tgt) == "*"))
              && (k == KillDenied(UnknownType) <==> kind.OtherType?)
              && k != KillDenied(EmptyIntersection)
  {
    hide HasFleet, MinionsWith, Strip;
  }

  ghost predicate CleanWorld(w: World) {
    forall m :: m in w.snapshot ==> Clean(m)
  }

  /** Without a fleet grant, a published target is a list naming requested ids the
      caller holds the permission on, at least one, and never anything else; the
      string reads back as those ids exactly when each of them is clean. */
  lemma NarrowingIsExact(w: World, entries: seq<Entry>, perm: Perm, tgt: string, kind: TargetType)
    requires !HasFleet(entries, perm)
    ensures var r := Narrow(w, entries, perm, tgt, kind);
            r.Published? <==> Requested(w, tgt, kind).Some?
                              && Requested(w, tgt, kind).value * MinionsWith(w, entries, perm) != {}
    ensures var r := Narrow(w, entries, perm, tgt, kind);
            r.Published? ==>
              && r.kind == ListType
              && r.requested == Requested(w, tgt, kind)
              && r.hit == Some(r.requested.value * MinionsWith(w, entries, perm)) && r.hit.value != {}
              && (Names(r.tgt) == r.hit.value <==> forall m :: m in r.hit.value ==> Clean(m))
  {
    hide MinionsWith, HasFleet, Names, Clean;
    var r := Narrow(w, entries, perm, tgt, kind);
    if r.Published? {
      PublishedNames(r.hit.value);
    }
  }

  /** Every minion a narrowed target names is one authorize allows. */
  lemma NarrowedIsAuthorized(w: World, entries: seq<Entry>, perm: Perm, tgt: string, kind: TargetType, m: Id)
    requires CleanWorld(w) && KnownPerm(perm) && DomainOf(perm) == MinionDomain
    requires !HasFleet(entries, perm) && Narrow(w, entries, perm, tgt, kind).Published?
    requires m in Names(Narrow(w, entries, perm, tgt, kind).tgt)
    ensures Authorized(w, entries, perm, Some(m), None) && m in Requested(w, tgt, kind).value
  {
    hide Narrow, Authorized, Names, HasFleet, MinionsWith;
    NarrowingIsExact(w, entries, perm, tgt, kind);
    MinionDomainAgrees(w, entries, perm, m, None);
  }

  /** Narrowing a published target again changes nothing. */
  lemma NarrowingIsIdempotent(w: World, entries: seq<Entry>, perm: Perm, tgt: string, kind: TargetType)
    requires CleanWorld(w) && Narrow(w, entries, perm, tgt, kind).Published?
    ensures var r := Narrow(w, entries, perm, tgt, kind);
            var again := Narrow(w, entries, perm, r.tgt, r.kind);
            again.Published? && again.tgt == r.tgt && again.kind == r.kind
  {
    hide HasFleet, MinionsWith, Names, Clean;
    if !HasFleet(entries, perm) {
      var r := Narrow(w, entries, perm, tgt, kind);
      NarrowingIsExact(w, entries, perm, tgt, kind);
      assert Names(r.tgt) == r.hit.value;
      assert Names(r.tgt) * w.snapshot == r.hit.value;
      assert r.hit.value * MinionsWith(w, entries, perm) == r.hit.value;
    }
  }

  /** A kill without a fleet grant reaches the whole resolved target or nothing, and
      what it publishes is what ordinary narrowing under job.kill would. */
  lemma KillIsAllOrNothing(w: World, entries: seq<Entry>, tgt: string, kind: TargetType)
    requires !HasFleet(entries, JobKill)
    ensures NarrowKill(w, entries, tgt, kind).KillTarget? <==>
              && (kind.ListType? || kind.GroupType? || (kind.GlobType? && Strip(tgt) != "*"))
              && Requested(w, tgt, kind).value != {}
              && Requested(w, tgt, kind).value <= MinionsWith(w, entries, JobKill)
    ensures var k := NarrowKill(w, entries, tgt, kind);
            k.KillTarget? ==>
              && k.kind == ListType
              && Narrow(w, entries, JobKill, tgt, kind)
                 == Published(k.tgt, ListType, Requested(w, tgt, kind), Requested(w, tgt, kind))
              && (CleanWorld(w) ==> Names(k.tgt) == Requested(w, tgt, kind).value)
  {
    var k := NarrowKill(w, entries, tgt, kind);
    if k.KillTarget? {
      var resolved := Requested(w, tgt, kind).value;
      assert resolved * MinionsWith(w, entries, JobKill) == resolved;
      PublishedNames(resolved);
    }
  }

  /** published_snapshot_ids */
  function PublishedIds(w: World, tgt: Option<string>, kind: TargetType): Option<set<Id>> {
    Requested(w, if tgt.Some? then tgt.value else "", kind)
  }

  /** The stored target of a scoped publish is later read back as exactly the ids it
      was narrowed to. */
  lemma StoredTargetReadsBack(w: World, entries: seq<Entry>, perm: Perm, tgt: string, kind: TargetType)
    requires CleanWorld(w) && !HasFleet(entries, perm) && Narrow(w, entries, perm, tgt, kind).Published?
    ensures var r := Narrow(w, entries, perm, tgt, kind);
            PublishedIds(w, Some(r.tgt), r.kind) == r.hit
  {
    var r := Narrow(w, entries, perm, tgt, kind);
    PublishedNames(r.hit.value);
    assert Names(r.tgt) * w.snapshot == r.hit.value;
  }
}
