/** The head of a launch: what leaves for Salt, and what the job row keeps, once the
    target has been narrowed to the caller's scope. */
module RbacLaunch {
  import opened Options
  import opened Text
  import opened RbacCatalog
  import opened RbacScopes
  import opened RbacTargets

  datatype Class = ReadClass | ChangeClass | StateClass | OrchestrateClass | NoClass

  /** The function a schedule would run: absent or off the allowlist, or its class. */
  datatype Inner = NotAllowed | Runs(class': Class)

  datatype Request = Request(
    tgt: string,
    kind: TargetType,
    typed: Option<string>,     // what the user typed, when the form kept it
    ssh: bool,
    perm: Option<Perm>,        // publish_perm of the function
    schedules: bool,           // the function is schedule.add
    inner: Inner)

  datatype Reason = Unclassed | SshNeedsFleet | Narrowing(refusal: Refusal) | ScheduleRefused | NoSuchGroup

  /** The publish and the job row it leaves; dropped is what narrowing took away. */
  datatype Launched =
    | Refused(reason: Reason)
    | Sent(tgt: string, kind: TargetType, requested: string, dropped: set<Id>)

  /** publish_perm only ever names these. */
  predicate PublishPerm(p: Perm) {
    || p.JobRunRead? || p.JobRunChange? || p.JobRunState? || p.PillarRead? || p.MineRead? || p.BeaconWrite?
    || p.JobKill? || p.ScheduleWrite?
  }

  // ------------------------------------------------------------------------ schedules

  /** may_define_schedule_fleet */
  predicate MayScheduleFleet(entries: seq<Entry>, inner: Inner) {
    && inner.Runs? && HasFleet(entries, ScheduleWrite)
    && match inner.class'
       case ReadClass => HasFleet(entries, JobRunRead) || HasFleet(entries, ScheduleAllowRead)
       case ChangeClass => HasFleet(entries, JobRunChange) || HasFleet(entries, ScheduleAllowChange)
       case StateClass => HasFleet(entries, JobRunState) || HasFleet(entries, ScheduleAllowState)
       case OrchestrateClass => HasFleet(entries, JobRunOrchestrate)
       case NoClass => false
  }

  /** may_define_schedule */
  predicate MaySchedule(w: World, entries: seq<Entry>, m: Id, inner: Inner) {
    && inner.Runs? && Authorized(w, entries, ScheduleWrite, Some(m), None)
    && match inner.class'
       case ReadClass =>
         || Authorized(w, entries, JobRunRead, Some(m), None)
         || Authorized(w, entries, ScheduleAllowRead, Some(m), None)
       case ChangeClass =>
         || Authorized(w, entries, JobRunChange, Some(m), None)
         || Authorized(w, entries, ScheduleAllowChange, Some(m), None)
       case StateClass =>
         || Authorized(w, entries, JobRunState, Some(m), None)
         || Authorized(w, entries, ScheduleAllowState, Some(m), None)
       case OrchestrateClass => Authorized(w, entries, JobRunOrchestrate, None, None)
       case NoClass => false
  }

  /** The fleet check is the per-minion one asked of a minion nobody has seen yet; and
      it implies the per-minion one everywhere. */
  lemma FleetScheduleIsForUnseen(w: World, entries: seq<Entry>, m: Id, inner: Inner)
    ensures MayScheduleFleet(entries, inner) ==> MaySchedule(w, entries, m, inner)
    ensures m !in w.snapshot ==> (MayScheduleFleet(entries, inner) <==> MaySchedule(w, entries, m, inner))
  {
    hide Authorized, HasFleet;
    UnseenNeedsFleet(w, entries, ScheduleWrite, m);
    match inner
    case NotAllowed =>
    case Runs(class') =>
      match class'
      case ReadClass =>
        UnseenNeedsFleet(w, entries, JobRunRead, m);
        UnseenNeedsFleet(w, entries, ScheduleAllowRead, m);
      case ChangeClass =>
        UnseenNeedsFleet(w, entries, JobRunChange, m);
        UnseenNeedsFleet(w, entries, ScheduleAllowChange, m);
      case StateClass =>
        UnseenNeedsFleet(w, entries, JobRunState, m);
        UnseenNeedsFleet(w, entries, ScheduleAllowState, m);
      case OrchestrateClass =>
        FleetDomainAgrees(w, entries, JobRunOrchestrate, None, None);
      case NoClass =>
  }

  /** Defining a schedule on a minion takes schedule.write there, and there too the
      permission to run the class of function it would run, or to have it run by a
      schedule; orchestration takes the fleet-wide permission. */
  lemma ScheduleMeans(w: World, entries: seq<Entry>, m: Id, run: Perm, allow: Perm, class': Class)
    requires (run, allow, class') in {(JobRunRead, ScheduleAllowRead, ReadClass),
                                      (JobRunChange, ScheduleAllowChange, ChangeClass),
                                      (JobRunState, ScheduleAllowState, StateClass)}
    ensures MaySchedule(w, entries, m, Runs(class')) <==>
              && Authorized(w, entries, ScheduleWrite, Some(m), None)
              && (Authorized(w, entries, run, Some(m), None) || Authorized(w, entries, allow, Some(m), None))
    ensures MaySchedule(w, entries, m, Runs(OrchestrateClass)) <==>
              Authorized(w, entries, ScheduleWrite, Some(m), None) && HasFleet(entries, JobRunOrchestrate)
    ensures !MaySchedule(w, entries, m, Runs(NoClass)) && !MaySchedule(w, entries, m, NotAllowed)
  {
    FleetDomainAgrees(w, entries, JobRunOrchestrate, None, None);
    hide Authorized, HasFleet;
  }

  lemma UnseenNeedsFleet(w: World, entries: seq<Entry>, perm: Perm, m: Id)
    requires KnownPerm(perm) && DomainOf(perm) == MinionDomain
    ensures HasFleet(entries, perm) ==> Authorized(w, entries, perm, Some(m), None)
    ensures m !in w.snapshot ==> (Authorized(w, entries, perm, Some(m), None) <==> HasFleet(entries, perm))
  {
    hide Authorized, HasFleet;
    MinionDomainAgrees(w, entries, perm, m, None);
  }

  // --------------------------------------------------------------------------- launch

  /** resolve_group_target, for a target still of the group type. */
  function Expanded(w: World, tgt: string, kind: TargetType, requested: string, dropped: set<Id>): Launched {
    if !kind.GroupType? then Sent(tgt, kind, requested, dropped)
    else
      var members := GroupMembers(w.jobGroups, tgt) * w.snapshot;
      if members == {} then Refused(NoSuchGroup) else Sent(Join(Sorted(members), ','), ListType, requested, dropped)
  }

  /** launch, up to the publish. */
  function Launch(w: World, entries: seq<Entry>, scoped: bool, q: Request): Launched {
    var requested := if q.typed.Some? then q.typed.value else q.tgt;
    if !scoped then Expanded(w, q.tgt, q.kind, requested, {})
    else if q.perm.None? then Refused(Unclassed)
    else if q.ssh && !HasFleet(entries, q.perm.value) then Refused(SshNeedsFleet)
    else
      match Narrow(w, entries, q.perm.value, q.tgt, q.kind)
      case Denied(refusal) => Refused(Narrowing(refusal))
      case Published(tgt, kind, asked, hit) =>
        var dropped := if asked.Some? && hit.Some? then asked.value - hit.value else {};
        if q.schedules && !(if hit.None? then MayScheduleFleet(entries, q.inner)
                            else forall m :: m in hit.value ==> MaySchedule(w, entries, m, q.inner))
        then Refused(ScheduleRefused)
        else Expanded(w, tgt, kind, requested, dropped)
  }

  /** The minions a scoped launch without a fleet grant goes to. */
  function Reached(w: World, entries: seq<Entry>, q: Request): set<Id>
    requires q.perm.Some?
  {
    var asked := Requested(w, q.tgt, q.kind);
    if asked.None? then {} else asked.value * MinionsWith(w, entries, q.perm.value)
  }

  /** Without a fleet grant a scoped launch goes out exactly when its function has a
      class, it is not an ssh run, it reaches someone, and a schedule is allowed on
      each minion it reaches. */
  lemma SentExactly(w: World, entries: seq<Entry>, q: Request)
    requires q.perm.Some? ==> !HasFleet(entries, q.perm.value)
    ensures Launch(w, entries, true, q).Sent? <==>
              && q.perm.Some? && !q.ssh && Reached(w, entries, q) != {}
              && (q.schedules ==> forall m :: m in Reached(w, entries, q) ==> MaySchedule(w, entries, m, q.inner))
  {
    hide HasFleet, MinionsWith, MaySchedule, MayScheduleFleet;
    if q.perm.Some? {
      NarrowingIsExact(w, entries, q.perm.value, q.tgt, q.kind);
      var r := Narrow(w, entries, q.perm.value, q.tgt, q.kind);
      assert r.Published? ==> r.kind == ListType && r.hit == Some(Reached(w, entries, q));
    }
  }

  /** Why a launch is refused. Without a class of function, for ssh without a fleet
      grant, and for a target that does not narrow, whatever it would schedule; a group
      without known members only where the target was not narrowed. */
  lemma RefusalMeans(w: World, entries: seq<Entry>, scoped: bool, q: Request)
    ensures Launch(w, entries, scoped, q) == Refused(Unclassed) <==> scoped && q.perm == None
    ensures Launch(w, entries, scoped, q) == Refused(SshNeedsFleet)
       <==> scoped && q.perm.Some? && q.ssh && !HasFleet(entries, q.perm.value)
    ensures forall refusal ::
              Launch(w, entries, scoped, q) == Refused(Narrowing(refusal)) <==>
                scoped && q.perm.Some? && !q.ssh && Narrow(w, entries, q.perm.value, q.tgt, q.kind) == Denied(refusal)
    ensures Launch(w, entries, scoped, q) == Refused(ScheduleRefused) ==> scoped && q.schedules
    ensures Launch(w, entries, scoped, q) == Refused(NoSuchGroup) ==>
              && Requested(w, q.tgt, GroupType) == Some({}) && q.kind == GroupType
              && (scoped ==> HasFleet(entries, q.perm.value))
  {
    hide HasFleet, MinionsWith, MaySchedule, MayScheduleFleet;
  }

  /** What is sent without a fleet grant is a list that names exactly the minions
      reached; with those dropped it makes up the request; and the job row reads back
      as it. */
  lemma SentIsReached(w: World, entries: seq<Entry>, q: Request)
    requires CleanWorld(w) && q.perm.Some? && !HasFleet(entries, q.perm.value)
    requires Launch(w, entries, true, q).Sent?
    ensures var out, reached := Launch(w, entries, true, q), Reached(w, entries, q);
            && out.kind == ListType && Names(out.tgt) == reached
            && out.dropped !! reached && Requested(w, q.tgt, q.kind) == Some(out.dropped + reached)
            && PublishedIds(w, Some(out.tgt), out.kind) == Some(reached)
            && out.requested == if q.typed.Some? then q.typed.value else q.tgt
  {
    hide HasFleet, MinionsWith, MaySchedule, Names, Clean;
    NarrowingIsExact(w, entries, q.perm.value, q.tgt, q.kind);
    StoredTargetReadsBack(w, entries, q.perm.value, q.tgt, q.kind);
    var r := Narrow(w, entries, q.perm.value, q.tgt, q.kind);
    var asked, hit := r.requested.value, r.hit.value;
    assert hit == Reached(w, entries, q);
    assert forall m :: m in hit ==> m in w.snapshot && Clean(m);
    assert (asked - hit) + hit == asked;
  }

  /** Nothing leaves for a minion the caller may not run the function on, nor a
      schedule for one on which it may not be defined: with or without a fleet grant,
      for any minion of the snapshot or not. */
  lemma SentIsAuthorized(w: World, entries: seq<Entry>, q: Request, m: Id)
    requires CleanWorld(w) && q.perm.Some? && PublishPerm(q.perm.value)
    requires Launch(w, entries, true, q).Sent?
    requires HasFleet(entries, q.perm.value) || m in Names(Launch(w, entries, true, q).tgt)
    ensures Authorized(w, entries, q.perm.value, Some(m), None)
    ensures q.schedules ==> MaySchedule(w, entries, m, q.inner)
  {
    hide HasFleet, MinionsWith, MaySchedule, Names, Authorized, MayScheduleFleet;
    MinionDomainAgrees(w, entries, q.perm.value, m, None);
    FleetScheduleIsForUnseen(w, entries, m, q.inner);
    if !HasFleet(entries, q.perm.value) {
      SentIsReached(w, entries, q);
      SentExactly(w, entries, q);
    }
  }

  /** A fleet grant, or legacy mode, keeps the target as it is, save that a group is
      spelt out. */
  lemma FleetKeepsTarget(w: World, entries: seq<Entry>, scoped: bool, q: Request)
    requires CleanWorld(w) && (scoped ==> q.perm.Some? && HasFleet(entries, q.perm.value))
    requires Launch(w, entries, scoped, q).Sent?
    ensures var out := Launch(w, entries, scoped, q);
            && out.dropped == {} && out.requested == (if q.typed.Some? then q.typed.value else q.tgt)
            && if q.kind.GroupType? then out.kind == ListType && Some(Names(out.tgt)) == Requested(w, q.tgt, q.kind)
               else out.tgt == q.tgt && out.kind == q.kind
  {
    hide HasFleet, MayScheduleFleet, Names;
    PublishedNames(GroupMembers(w.jobGroups, q.tgt) * w.snapshot);
  }

  /** A launch that is not narrowed, by a fleet grant or in legacy mode, goes out
      exactly when a group it names has a known member and, under a fleet grant, a
      schedule may be defined fleet-wide. */
  lemma WideSentExactly(w: World, entries: seq<Entry>, scoped: bool, q: Request)
    requires scoped ==> q.perm.Some? && HasFleet(entries, q.perm.value)
    ensures Launch(w, entries, scoped, q).Sent? <==>
              && (q.kind.GroupType? ==> Requested(w, q.tgt, q.kind) != Some({}))
              && (scoped && q.schedules ==> MayScheduleFleet(entries, q.inner))
    ensures Launch(w, entries, scoped, q).Sent? && !q.kind.GroupType? ==>
              Launch(w, entries, scoped, q).tgt == q.tgt && Launch(w, entries, scoped, q).kind == q.kind
  {
    hide HasFleet, MayScheduleFleet;
  }

  lemma StarNames()
    ensures Names("*") == {"*"}
  {
    SplitWhole("*", ',');
    StripTrims("*");
    assert Trimmed("*");
    assert "*" in Split("*", ',');
  }

  /** The bare star never leaves for a scoped caller, unless a minion of that name
      exists. */
  lemma NeverStar(w: World, entries: seq<Entry>, q: Request)
    requires CleanWorld(w) && "*" !in w.snapshot && q.perm.Some? && !HasFleet(entries, q.perm.value)
    requires Launch(w, entries, true, q).Sent?
    ensures Launch(w, entries, true, q).tgt != "*"
  {
    hide Launch, HasFleet, Names, MinionsWith;
    SentIsReached(w, entries, q);
    StarNames();
  }
}
