/** The two passes as the program runs them: loops over ids and pods that act on the
    masters and fill a report, proved equal to the decisions and effects of KeyTrust.
    The reports are then shown to account for every planned pair. */
module KeyTrustPasses {
  import opened Options
  import opened Sequences
  import opened Text
  import opened KeyTrust
  import opened KeyTrustRuns

  // ------------------------------------------------------------------------ reports

  datatype ReconcileReport = ReconcileReport(
    accepted: seq<(Pod, Id)>, skipped: seq<(Id, Reason)>, unreachable: seq<Pod>, errors: seq<(Pod, Id)>)

  datatype Failure = ExecFailed | CopyUnverified | RereadFailed | NotAcceptedAfterCopy

  datatype BackfillReport = BackfillReport(
    plan: seq<(Pod, Id)>, backfilled: seq<(Pod, Id)>, skipped: seq<(Id, Reason)>,
    errors: seq<(Pod, Id, Failure)>, unreachable: seq<Pod>, unavailable: bool)

  function Unreachable(clients: seq<Pod>, env: Env): seq<Pod> {
    if clients == [] then []
    else
      var last := clients[|clients| - 1];
      Unreachable(clients[..|clients| - 1], env) + if env.reachable(last) then [] else [last]
  }

  /** The planned accepts whose call raised, or did not. */
  function Ended(plan: seq<(Pod, Id)>, env: Env, raised: bool): seq<(Pod, Id)> {
    if plan == [] then []
    else
      var a := plan[|plan| - 1];
      Ended(plan[..|plan| - 1], env, raised) + if env.accept(a.0, a.1).raised == raised then [a] else []
  }

  function ReconcileReportOf(fleet: Fleet, clients: seq<Pod>, env: Env, execute: bool): ReconcileReport
    requires Known(fleet, clients)
  {
    var vs := Views(fleet, clients, env);
    var plan := Plan(vs);
    ReconcileReport(
      if execute then Ended(plan, env, false) else plan,
      Skips(vs, Sorted(Ids(vs))),
      Unreachable(clients, env),
      if execute then Ended(plan, env, true) else [])
  }

  lemma {:induction false} EndedAre(plan: seq<(Pod, Id)>, env: Env, raised: bool)
    ensures forall a :: a in Ended(plan, env, raised) <==> a in plan && env.accept(a.0, a.1).raised == raised
    ensures |Ended(plan, env, true)| + |Ended(plan, env, false)| == |plan|
  {
    if plan != [] { EndedAre(plan[..|plan| - 1], env, raised); }
  }

  /** Preview equals execution: from one state, the pairs a dry pass names are
      exactly those a real one reports as accepted or as errors, each in one list
      only; skips and unreachable pods are identical. */
  lemma PreviewIsExecution(fleet: Fleet, clients: seq<Pod>, env: Env)
    requires Known(fleet, clients)
    ensures var dry := ReconcileReportOf(fleet, clients, env, false);
            var run := ReconcileReportOf(fleet, clients, env, true);
            && dry.skipped == run.skipped && dry.unreachable == run.unreachable && dry.errors == []
            && (forall a :: a in dry.accepted <==> a in run.accepted || a in run.errors)
            && (forall a :: !(a in run.accepted && a in run.errors))
            && |dry.accepted| == |run.accepted| + |run.errors|
  {
    EndedAre(Plan(Views(fleet, clients, env)), env, true);
    EndedAre(Plan(Views(fleet, clients, env)), env, false);
  }

  lemma {:induction false} UnreachableAre(clients: seq<Pod>, env: Env)
    ensures forall p :: p in Unreachable(clients, env) <==> p in clients && !env.reachable(p)
  {
    if clients != [] { UnreachableAre(clients[..|clients| - 1], env); }
  }

  /** What a real pass reports, pair by pair: as accepted what it planned and the call
      did not refuse, as an error what the call did, and as unreachable the clients
      that did not answer. */
  lemma ReconcileReportIs(fleet: Fleet, clients: seq<Pod>, env: Env, p: Pod, id: Id)
    requires Known(fleet, clients)
    ensures var report := ReconcileReportOf(fleet, clients, env, true);
            var planned := && p in clients && env.reachable(p) && env.fingered(p, id)
                           && Look(fleet, p, id).Some? && Look(fleet, p, id).value.tab == Pending
                           && Shown(fleet, clients, env, id, Look(fleet, p, id).value.key.finger)
                           && !Barred(fleet, clients, env, id);
            && ((p, id) in report.accepted <==> planned && !env.accept(p, id).raised)
            && ((p, id) in report.errors <==> planned && env.accept(p, id).raised)
            && (p in report.unreachable <==> p in clients && !env.reachable(p))
  {
    hide Plan, Views, Shown, Barred;
    PlannedIs(fleet, clients, env, p, id);
    EndedAre(Plan(Views(fleet, clients, env)), env, true);
    EndedAre(Plan(Views(fleet, clients, env)), env, false);
    UnreachableAre(clients, env);
  }

  // ------------------------------------------------------- one candidate's outcomes

  function Backfilled(c: Candidate, pods: seq<Pod>, env: Env): seq<(Pod, Id)> {
    if pods == [] then []
    else
      var pod := pods[|pods| - 1];
      Backfilled(c, pods[..|pods| - 1], env)
      + if env.mapped(pod) && env.install(pod, c.id) == Verified(Listed) then [(pod, c.id)] else []
  }

  function FailureOf(r: Install): Failure
    requires r != Verified(Listed)
  {
    match r
    case ExecRaised(_) => ExecFailed
    case Unverified(_) => CopyUnverified
    case Verified(Unanswered) => RereadFailed
    case Verified(NotListed) => NotAcceptedAfterCopy
  }

  function Failed(c: Candidate, pods: seq<Pod>, env: Env): seq<(Pod, Id, Failure)> {
    if pods == [] then []
    else
      var pod := pods[|pods| - 1];
      Failed(c, pods[..|pods| - 1], env)
      + if env.mapped(pod) && env.install(pod, c.id) != Verified(Listed)
        then [(pod, c.id, FailureOf(env.install(pod, c.id)))] else []
  }

  function UnmappedAt(c: Candidate, pods: seq<Pod>, env: Env): seq<(Id, Reason)> {
    if pods == [] then []
    else
      var pod := pods[|pods| - 1];
      UnmappedAt(c, pods[..|pods| - 1], env) + if env.mapped(pod) then [] else [(c.id, Unmapped(pod))]
  }

  /** The copy of c gets as far as its target pods. */
  predicate Sourced(c: Candidate, env: Env)
    requires c.acceptedOn != []
  {
    SafeId(c.id) && env.readable(c.acceptedOn[0], c.id)
  }

  predicate Sound(cs: seq<Candidate>) {
    forall i :: 0 <= i < |cs| ==> cs[i].acceptedOn != []
  }

  function AllBackfilled(cs: seq<Candidate>, env: Env): seq<(Pod, Id)>
    requires Sound(cs)
  {
    if cs == [] then []
    else
      var c := cs[|cs| - 1];
      AllBackfilled(cs[..|cs| - 1], env) + if Sourced(c, env) then Backfilled(c, c.absentOn, env) else []
  }

  function AllFailed(cs: seq<Candidate>, env: Env): seq<(Pod, Id, Failure)>
    requires Sound(cs)
  {
    if cs == [] then []
    else
      var c := cs[|cs| - 1];
      AllFailed(cs[..|cs| - 1], env) + if Sourced(c, env) then Failed(c, c.absentOn, env) else []
  }

  function SkippedFor(c: Candidate, env: Env): seq<(Id, Reason)>
    requires c.acceptedOn != []
  {
    if !SafeId(c.id) then [(c.id, Unsafe)]
    else if !env.readable(c.acceptedOn[0], c.id) then [(c.id, Unreadable(c.acceptedOn[0]))]
    else UnmappedAt(c, c.absentOn, env)
  }

  function AllSkipped(cs: seq<Candidate>, env: Env): seq<(Id, Reason)>
    requires Sound(cs)
  {
    if cs == [] then [] else AllSkipped(cs[..|cs| - 1], env) + SkippedFor(cs[|cs| - 1], env)
  }

  /** report["plan"] */
  function PlanPairs(cs: seq<Candidate>): seq<(Pod, Id)> {
    if cs == [] then []
    else
      var c := cs[|cs| - 1];
      PlanPairs(cs[..|cs| - 1]) + seq(|c.absentOn|, i requires 0 <= i < |c.absentOn| => (c.absentOn[i], c.id))
  }

  lemma {:induction false} CandidatesSound(vs: seq<View>, ids: seq<Id>)
    ensures Sound(Candidates(vs, ids))
  {
    if ids != [] {
      CandidatesSound(vs, ids[..|ids| - 1]);
    }
  }

  function BackfillReportOf(fleet: Fleet, clients: seq<Pod>, env: Env, dryRun: bool, available: bool): BackfillReport
    requires Known(fleet, clients)
  {
    var vs := Views(fleet, clients, env);
    var ids := Sorted(Ids(vs));
    var cs := Candidates(vs, ids);
    CandidatesSound(vs, ids);
    if dryRun || cs == [] || !available then
      BackfillReport(PlanPairs(cs), [], CopySkips(vs, ids), [], Unreachable(clients, env), !dryRun && cs != [])
    else
      BackfillReport(PlanPairs(cs), AllBackfilled(cs, env), CopySkips(vs, ids) + AllSkipped(cs, env),
                     AllFailed(cs, env), Unreachable(clients, env), false)
  }

  lemma {:induction false} OneCandidate(c: Candidate, pods: seq<Pod>, env: Env)
    ensures forall p, i :: (p, i) in Backfilled(c, pods, env) <==>
              i == c.id && p in pods && env.mapped(p) && env.install(p, i) == Verified(Listed)
    ensures forall p, i, f :: (p, i, f) in Failed(c, pods, env) <==>
              i == c.id && p in pods && env.mapped(p) && env.install(p, i) != Verified(Listed)
              && f == FailureOf(env.install(p, i))
    ensures forall i, r :: (i, r) in UnmappedAt(c, pods, env) <==>
              i == c.id && r.Unmapped? && r.pod in pods && !env.mapped(r.pod)
  {
    if pods != [] { OneCandidate(c, pods[..|pods| - 1], env); }
  }

  lemma {:induction false} AllCandidates(cs: seq<Candidate>, env: Env, p: Pod, i: Id)
    requires Sound(cs)
    ensures (p, i) in AllBackfilled(cs, env) <==>
              (exists c :: c in cs && c.id == i && p in c.absentOn && Sourced(c, env))
              && env.mapped(p) && env.install(p, i) == Verified(Listed)
    ensures (exists f :: (p, i, f) in AllFailed(cs, env)) <==>
              (exists c :: c in cs && c.id == i && p in c.absentOn && Sourced(c, env))
              && env.mapped(p) && env.install(p, i) != Verified(Listed)
  {
    if cs != [] {
      var front, c := cs[..|cs| - 1], cs[|cs| - 1];
      AllCandidates(front, env, p, i);
      OneCandidate(c, c.absentOn, env);
      assert forall d :: d in cs <==> d in front || d == c;
      if env.install(p, i) != Verified(Listed) {
        var f := FailureOf(env.install(p, i));
        assert (p, i, f) in AllFailed(cs, env) <==>
                 (p, i, f) in AllFailed(front, env) || (Sourced(c, env) && (p, i, f) in Failed(c, c.absentOn, env));
      }
    }
  }

  lemma {:induction false} SkippedAre(cs: seq<Candidate>, env: Env, i: Id, r: Reason)
    requires Sound(cs)
    ensures (i, r) in AllSkipped(cs, env) <==> exists c :: c in cs && c.id == i && (i, r) in SkippedFor(c, env)
  {
    if cs != [] {
      SkippedAre(cs[..|cs| - 1], env, i, r);
      var c := cs[|cs| - 1];
      assert forall d :: d in cs <==> d in cs[..|cs| - 1] || d == c;
      if (i, r) in SkippedFor(c, env) { OneCandidate(c, c.absentOn, env); }
    }
  }

  lemma {:induction false} PlanPairsAre(cs: seq<Candidate>, p: Pod, i: Id)
    ensures (p, i) in PlanPairs(cs) <==> exists c :: c in cs && c.id == i && p in c.absentOn
  {
    if cs != [] {
      var front, c := cs[..|cs| - 1], cs[|cs| - 1];
      PlanPairsAre(front, p, i);
      var last := seq(|c.absentOn|, k requires 0 <= k < |c.absentOn| => (c.absentOn[k], c.id));
      assert (p, i) in last <==> c.id == i && p in c.absentOn by {
        if c.id == i && p in c.absentOn {
          var k :| 0 <= k < |c.absentOn| && c.absentOn[k] == p;
          assert last[k] == (p, i);
        }
      }
    }
  }

  /** How a planned copy of id to p may be given up on without an attempt there. */
  predicate SkipExplains(r: Reason, p: Pod) {
    r == Unsafe || r.Unreadable? || r == Unmapped(p)
  }

  /** c is the one candidate of its id. */
  ghost predicate TheOne(cs: seq<Candidate>, c: Candidate) {
    c in cs && c.acceptedOn != [] && forall d :: d in cs && d.id == c.id ==> d == c
  }

  lemma DoneOrFailed(cs: seq<Candidate>, c: Candidate, env: Env, p: Pod)
    requires Sound(cs) && TheOne(cs, c) && p in c.absentOn
    ensures (p, c.id) in AllBackfilled(cs, env) <==>
              Sourced(c, env) && env.mapped(p) && env.install(p, c.id) == Verified(Listed)
    ensures (exists f :: (p, c.id, f) in AllFailed(cs, env)) <==>
              Sourced(c, env) && env.mapped(p) && env.install(p, c.id) != Verified(Listed)
  {
    hide AllBackfilled, AllFailed, Sourced;
    AllCandidates(cs, env, p, c.id);
  }

  lemma SkippedOne(cs: seq<Candidate>, c: Candidate, env: Env, p: Pod)
    requires Sound(cs) && TheOne(cs, c) && p in c.absentOn
    ensures (exists r :: (c.id, r) in AllSkipped(cs, env) && SkipExplains(r, p)) <==> !Sourced(c, env) || !env.mapped(p)
  {
    hide AllSkipped;
    forall r
      ensures (c.id, r) in AllSkipped(cs, env) <==> (c.id, r) in SkippedFor(c, env)
    {
      SkippedAre(cs, env, c.id, r);
    }
    OneCandidate(c, c.absentOn, env);
    if !SafeId(c.id) {
      assert (c.id, Unsafe) in SkippedFor(c, env);
    } else if !env.readable(c.acceptedOn[0], c.id) {
      assert (c.id, Unreadable(c.acceptedOn[0])) in SkippedFor(c, env);
    } else if !env.mapped(p) {
      assert (c.id, Unmapped(p)) in SkippedFor(c, env);
    }
  }

  /** Nothing planned goes missing: when the copy step is available, every planned
      pair is backfilled, or reported as an error, or its id is skipped for a reason
      that covers the pod; and only one of the three. */
  lemma EveryPlannedPairEnds(fleet: Fleet, clients: seq<Pod>, env: Env, p: Pod, id: Id)
    requires Known(fleet, clients)
    requires (p, id) in BackfillReportOf(fleet, clients, env, false, true).plan
    ensures var report := BackfillReportOf(fleet, clients, env, false, true);
            var done := (p, id) in report.backfilled;
            var failed := exists f :: (p, id, f) in report.errors;
            var skipped := exists r :: (id, r) in report.skipped && SkipExplains(r, p);
            && (done || failed || skipped)
            && !(done && failed) && !(done && skipped) && !(failed && skipped)
  {
    hide Views, BackfillReportOf, AllBackfilled, AllFailed, AllSkipped, CopySkips, PlanPairs, CandidateOf, CopyPlanned;
    var vs := Views(fleet, clients, env);
    var ids := Sorted(Ids(vs));
    var cs := Candidates(vs, ids);
    ReportParts(fleet, clients, env);
    CandidatesAre(vs, ids);
    PlanPairsAre(cs, p, id);
    var c :| c in cs && c.id == id && p in c.absentOn;
    DoneOrFailed(cs, c, env, p);
    SkippedOne(cs, c, env, p);
    CopySkipsAre(vs, ids);
  }

  /** A failure is reported for what the install came to. */
  lemma {:induction false} FailureIs(cs: seq<Candidate>, env: Env, p: Pod, i: Id, f: Failure)
    requires Sound(cs) && (p, i, f) in AllFailed(cs, env)
    ensures match f
            case ExecFailed => env.install(p, i).ExecRaised?
            case CopyUnverified => env.install(p, i).Unverified?
            case RereadFailed => env.install(p, i) == Verified(Unanswered)
            case NotAcceptedAfterCopy => env.install(p, i) == Verified(NotListed)
  {
    var front, c := cs[..|cs| - 1], cs[|cs| - 1];
    OneCandidate(c, c.absentOn, env);
    if (p, i, f) in AllFailed(front, env) { FailureIs(front, env, p, i, f); }
  }

  /** q is the pod, of those that trust id, that comes first in name order. */
  predicate FirstTrusting(fleet: Fleet, clients: seq<Pod>, env: Env, id: Id, q: Pod) {
    && q in clients && env.reachable(q) && Trusts(fleet, q, id)
    && forall o :: o in clients && env.reachable(o) && Trusts(fleet, o, id) ==> AtMost(q, o)
  }

  /** The candidate of an id, in terms of the true key directories. */
  lemma CandidateIs(fleet: Fleet, clients: seq<Pod>, env: Env, c: Candidate, q: Pod)
    requires Known(fleet, clients)
    requires var vs := Views(fleet, clients, env); c in Candidates(vs, Sorted(Ids(vs)))
    ensures !Barred(fleet, clients, env, c.id) && Agreed(fleet, clients, env, c.id, c.finger)
    ensures c.acceptedOn != [] && (FirstTrusting(fleet, clients, env, c.id, q) <==> q == c.acceptedOn[0])
    ensures forall p :: p in c.absentOn <==> p in clients && env.reachable(p) && Look(fleet, p, c.id).None?
  {
    hide Views, Ids, Agreed;
    var vs := Views(fleet, clients, env);
    CandidatesAre(vs, Sorted(Ids(vs)));
    BarredIsQuarantined(fleet, clients, env, c.id);
    UnanimousIsAgreed(fleet, clients, env, c.id);
    TrustingAre(fleet, clients, env, c.id);
    AbsentAre(fleet, clients, env, c.id);
    var s := Source(vs, c.id);
    if FirstTrusting(fleet, clients, env, c.id, q) { LeastUnique(q, s, AcceptedOn(vs, c.id)); }
  }

  lemma AbsentAre(fleet: Fleet, clients: seq<Pod>, env: Env, id: Id)
    requires Known(fleet, clients)
    ensures forall p :: p in AbsentOn(Views(fleet, clients, env), id) <==>
              p in clients && env.reachable(p) && Look(fleet, p, id).None?
  {
    hide Views;
    var vs := Views(fleet, clients, env);
    ViewsAre(fleet, clients, env);
    forall p | p in clients && env.reachable(p) && Look(fleet, p, id).None? ensures p in AbsentOn(vs, id) {
      assert ViewOf(fleet, p, env) in vs && TabOn(ViewOf(fleet, p, env), id) == None;
    }
  }

  /** Which copies a backfill plans: onto the reachable pods that lack an id, where no
      reachable pod rejects or denies it and all that trust it show one fingerprint. */
  lemma CopyPlanIs(fleet: Fleet, clients: seq<Pod>, env: Env, p: Pod, id: Id)
    requires Known(fleet, clients)
    ensures (p, id) in BackfillReportOf(fleet, clients, env, false, true).plan <==>
              && p in clients && env.reachable(p) && Look(fleet, p, id).None?
              && !Barred(fleet, clients, env, id) && exists finger :: Agreed(fleet, clients, env, id, finger)
  {
    hide Views, BackfillReportOf, PlanPairs, CandidateOf, CopyPlanned, Agreed, Barred, Look;
    var vs := Views(fleet, clients, env);
    var cs := Candidates(vs, Sorted(Ids(vs)));
    ReportParts(fleet, clients, env);
    PlanPairsAre(cs, p, id);
    CandidatesAre(vs, Sorted(Ids(vs)));
    if c :| c in cs && c.id == id && p in c.absentOn { CandidateIs(fleet, clients, env, c, p); }
    if p in clients && env.reachable(p) && Look(fleet, p, id).None? && !Barred(fleet, clients, env, id) {
      if finger :| Agreed(fleet, clients, env, id, finger) {
        AgreedIsPlanned(fleet, clients, env, p, id, finger);
        var c := CandidateOf(vs, id);
        CandidateAbsent(vs, id);
        assert c in cs && c.id == id && p in c.absentOn;
      }
    }
  }

  lemma AgreedIsPlanned(fleet: Fleet, clients: seq<Pod>, env: Env, p: Pod, id: Id, finger: string)
    requires Known(fleet, clients) && p in clients && env.reachable(p) && Look(fleet, p, id).None?
    requires !Barred(fleet, clients, env, id) && Agreed(fleet, clients, env, id, finger)
    ensures var vs := Views(fleet, clients, env);
            CopyPlanned(vs, id) && p in AbsentOn(vs, id) && id in Sorted(Ids(vs))
  {
    hide Views;
    var vs := Views(fleet, clients, env);
    BarredIsQuarantined(fleet, clients, env, id);
    AgreedIsUnanimous(fleet, clients, env, id, finger);
    AbsentAre(fleet, clients, env, id);
    assert p in AbsentOn(vs, id);
    var v :| v in vs && TabOn(v, id) == Some(Accepted);
    assert id in Ids(vs);
  }

  /** A dry run names the same plan and does nothing; where copies cannot be made, a real
      one says so exactly when it had any to make. */
  lemma PreviewOfCopies(fleet: Fleet, clients: seq<Pod>, env: Env, available: bool)
    requires Known(fleet, clients)
    ensures var dry := BackfillReportOf(fleet, clients, env, true, available);
            var run := BackfillReportOf(fleet, clients, env, false, available);
            && dry.plan == run.plan && dry.backfilled == [] && dry.errors == [] && !dry.unavailable
            && (forall p :: p in dry.unreachable <==> p in clients && !env.reachable(p))
            && run.unreachable == dry.unreachable
            && (run.unavailable <==> !available && run.plan != [])
            && (!available ==> run.backfilled == [] && run.errors == [] && run.skipped == dry.skipped)
  {
    hide Views, AllBackfilled, AllFailed, AllSkipped, CopySkips, CandidateOf, CopyPlanned, PlanPairs, Candidates;
    var vs := Views(fleet, clients, env);
    var ids := Sorted(Ids(vs));
    var cs := Candidates(vs, ids);
    UnreachableAre(clients, env);
    CandidatesAre(vs, ids);
    if cs == [] {
      NoPairs();
    } else {
      assert cs[0] in cs;
      CandidateAbsent(vs, cs[0].id);
      PlannedIsAbsent(vs, cs[0].id);
      var p :| p in AbsentOn(vs, cs[0].id);
      PlanPairsAre(cs, p, cs[0].id);
    }
  }

  lemma NoPairs()
    ensures PlanPairs([]) == []
  {
  }

  lemma PlannedIsAbsent(vs: seq<View>, id: Id)
    requires CopyPlanned(vs, id)
    ensures AbsentOn(vs, id) != {}
  {
  }

  /** How each planned copy ends, and under which name it is reported: q is the pod its
      key is read from. */
  lemma PlannedCopyEnds(fleet: Fleet, clients: seq<Pod>, env: Env, p: Pod, id: Id, q: Pod)
    requires Known(fleet, clients)
    requires (p, id) in BackfillReportOf(fleet, clients, env, false, true).plan
    requires FirstTrusting(fleet, clients, env, id, q)
    ensures var report := BackfillReportOf(fleet, clients, env, false, true);
            var safe := '/' !in id && '\0' !in id && (id == "" || id[0] != '.');
            var tried := safe && env.readable(q, id) && env.mapped(p);
            && ((p, id) in report.backfilled <==> tried && env.install(p, id) == Verified(Listed))
            && ((exists f :: (p, id, f) in report.errors) <==> tried && env.install(p, id) != Verified(Listed))
            && ((id, Unsafe) in report.skipped <==> !safe)
            && ((id, Unreadable(q)) in report.skipped <==> safe && !env.readable(q, id))
            && ((id, Unmapped(p)) in report.skipped <==> safe && env.readable(q, id) && !env.mapped(p))
    ensures forall f :: (p, id, f) in BackfillReportOf(fleet, clients, env, false, true).errors ==>
              match f
              case ExecFailed => env.install(p, id).ExecRaised?
              case CopyUnverified => env.install(p, id).Unverified?
              case RereadFailed => env.install(p, id) == Verified(Unanswered)
              case NotAcceptedAfterCopy => env.install(p, id) == Verified(NotListed)
  {
    hide Views, BackfillReportOf, AllBackfilled, AllFailed, AllSkipped, CopySkips, PlanPairs, CandidateOf, CopyPlanned,
         FirstTrusting;
    var vs := Views(fleet, clients, env);
    var ids := Sorted(Ids(vs));
    var cs := Candidates(vs, ids);
    ReportParts(fleet, clients, env);
    CandidatesAre(vs, ids);
    PlanPairsAre(cs, p, id);
    var c :| c in cs && c.id == id && p in c.absentOn;
    CandidateIs(fleet, clients, env, c, q);
    DoneOrFailed(cs, c, env, p);
    CopySkipsAre(vs, ids);
    forall r ensures (id, r) in AllSkipped(cs, env) <==> (id, r) in SkippedFor(c, env) { SkippedAre(cs, env, id, r); }
    OneCandidate(c, c.absentOn, env);
    forall f | (p, id, f) in AllFailed(cs, env)
      ensures match f
              case ExecFailed => env.install(p, id).ExecRaised?
              case CopyUnverified => env.install(p, id).Unverified?
              case RereadFailed => env.install(p, id) == Verified(Unanswered)
              case NotAcceptedAfterCopy => env.install(p, id) == Verified(NotListed)
    {
      FailureIs(cs, env, p, id, f);
    }
  }

  /** An id is left to a human as disagreeing exactly when it is trusted somewhere,
      absent somewhere, barred nowhere, and those that trust it do not all show one
      fingerprint. */
  lemma DisagreeIs(fleet: Fleet, clients: seq<Pod>, env: Env, id: Id, dryRun: bool, available: bool)
    requires Known(fleet, clients)
    ensures (id, Disagree) in BackfillReportOf(fleet, clients, env, dryRun, available).skipped <==>
              && !Barred(fleet, clients, env, id) && !(exists finger :: Agreed(fleet, clients, env, id, finger))
              && (exists q :: q in clients && env.reachable(q) && Trusts(fleet, q, id))
              && exists p :: p in clients && env.reachable(p) && Look(fleet, p, id).None?
  {
    hide Views, AllSkipped, CopySkips, Agreed, Barred, Look, Unanimous, Trusts, Quarantined;
    var vs := Views(fleet, clients, env);
    var ids := Sorted(Ids(vs));
    CopySkipsAre(vs, ids);
    BarredIsQuarantined(fleet, clients, env, id);
    TrustingAre(fleet, clients, env, id);
    AbsentAre(fleet, clients, env, id);
    if finger :| Agreed(fleet, clients, env, id, finger) { AgreedIsUnanimous(fleet, clients, env, id, finger); }
    if AcceptedOn(vs, id) != {} && Unanimous(vs, id) { UnanimousIsAgreed(fleet, clients, env, id); }
    TrustedIsListed(vs, id);
    assert AcceptedOn(vs, id) != {} <==> exists q :: q in clients && env.reachable(q) && Trusts(fleet, q, id) by {
      assert AcceptedOn(vs, id) != {} <==> exists q :: q in AcceptedOn(vs, id);
    }
    assert AbsentOn(vs, id) != {} <==> exists p :: p in clients && env.reachable(p) && Look(fleet, p, id).None? by {
      assert AbsentOn(vs, id) != {} <==> exists p :: p in AbsentOn(vs, id);
    }
    CandidatesSound(vs, ids);
    NoCandidateDisagrees(Candidates(vs, ids), env, id);
    var skips := CopySkips(vs, ids);
    assert skips + [] == skips;
  }

  lemma TrustedIsListed(vs: seq<View>, id: Id)
    ensures AcceptedOn(vs, id) != {} ==> id in Ids(vs)
  {
    if AcceptedOn(vs, id) != {} {
      var p :| p in AcceptedOn(vs, id);
      var v :| v in vs && TabOn(v, id) == Some(Accepted) && v.pod == p;
      assert id in v.seen;
    }
  }

  lemma {:induction false} NoCandidateDisagrees(cs: seq<Candidate>, env: Env, id: Id)
    requires Sound(cs)
    ensures (id, Disagree) !in AllSkipped(cs, env)
  {
    if cs != [] {
      NoCandidateDisagrees(cs[..|cs| - 1], env, id);
      OneCandidate(cs[|cs| - 1], cs[|cs| - 1].absentOn, env);
    }
  }

  lemma {:induction false} CopySkipsAre(vs: seq<View>, ids: seq<Id>)
    ensures forall i, r :: (i, r) in CopySkips(vs, ids) <==> i in ids && CopySkipped(vs, i) && r == Disagree
  {
    if ids != [] { CopySkipsAre(vs, ids[..|ids| - 1]); }
  }

  lemma ReportParts(fleet: Fleet, clients: seq<Pod>, env: Env)
    requires Known(fleet, clients)
    ensures var vs := Views(fleet, clients, env);
            var ids := Sorted(Ids(vs));
            var cs := Candidates(vs, ids);
            var report := BackfillReportOf(fleet, clients, env, false, true);
            && Sound(cs) && report.plan == PlanPairs(cs) && report.backfilled == AllBackfilled(cs, env)
            && report.errors == AllFailed(cs, env) && report.skipped == CopySkips(vs, ids) + AllSkipped(cs, env)
  {
    hide Views;
    var vs := Views(fleet, clients, env);
    CandidatesSound(vs, Sorted(Ids(vs)));
    var skips := CopySkips(vs, Sorted(Ids(vs)));
    assert skips + [] == skips;
  }

  // ------------------------------------------------------------------------ methods

  /** The master pods behind the clients: wheel calls and exec act here. */
  class Masters {
    var fleet: Fleet

    constructor (fleet: Fleet)
      ensures this.fleet == fleet
    {
      this.fleet := fleet;
    }

    /** wheel key.accept */
    method Accept(pod: Pod, id: Id, call: Call)
      requires pod in fleet
      modifies this
      ensures fleet == if call.applied then AfterAccepts(old(fleet), {(pod, id)}) else old(fleet)
      ensures fleet.Keys == old(fleet).Keys
    {
      if call.applied {
        OneAccept(fleet, pod, id);
        if id in fleet[pod] && fleet[pod][id].tab == Pending {
          fleet := fleet[pod := fleet[pod][id := Copy(Accepted, fleet[pod][id].key)]];
        }
      }
    }

    /** The install script of one copy. */
    method InstallKey(pod: Pod, id: Id, key: Key, result: Install)
      requires pod in fleet
      modifies this
      ensures fleet == if Applied(result) then AfterCopies(old(fleet), map[(pod, id) := key]) else old(fleet)
      ensures fleet.Keys == old(fleet).Keys
    {
      if Applied(result) {
        OneCopy(fleet, pod, id, key);
        fleet := fleet[pod := fleet[pod][id := Copy(Accepted, key)]];
      }
    }
  }

  lemma OneAccept(fleet: Fleet, pod: Pod, id: Id)
    requires pod in fleet
    ensures AfterAccepts(fleet, {(pod, id)})
         == if id in fleet[pod] && fleet[pod][id].tab == Pending
            then fleet[pod := fleet[pod][id := Copy(Accepted, fleet[pod][id].key)]] else fleet
  {
    hide AfterAccepts;
    var after := AfterAccepts(fleet, {(pod, id)});
    var now := if id in fleet[pod] && fleet[pod][id].tab == Pending
               then fleet[pod := fleet[pod][id := Copy(Accepted, fleet[pod][id].key)]] else fleet;
    forall p, i ensures Look(after, p, i) == Look(now, p, i) { AcceptLooks(fleet, {(pod, id)}, p, i); }
    AcceptKeys(fleet, {(pod, id)});
    SameFleet(after, now);
  }

  lemma AcceptKeys(fleet: Fleet, done: set<(Pod, Id)>)
    ensures AfterAccepts(fleet, done).Keys == fleet.Keys
  {
  }

  lemma CopyKeys(fleet: Fleet, done: map<(Pod, Id), Key>)
    ensures AfterCopies(fleet, done).Keys == fleet.Keys
  {
  }

  lemma OneCopy(fleet: Fleet, pod: Pod, id: Id, key: Key)
    requires pod in fleet
    ensures AfterCopies(fleet, map[(pod, id) := key]) == fleet[pod := fleet[pod][id := Copy(Accepted, key)]]
  {
    hide AfterCopies;
    var done := map[(pod, id) := key];
    var after, now := AfterCopies(fleet, done), fleet[pod := fleet[pod][id := Copy(Accepted, key)]];
    forall p, i ensures Look(after, p, i) == Look(now, p, i) { CopyLooks(fleet, done, p, i); }
    CopyKeys(fleet, done);
    SameFleet(after, now);
  }

  lemma AcceptsCompose(fleet: Fleet, a: set<(Pod, Id)>, b: set<(Pod, Id)>)
    ensures AfterAccepts(AfterAccepts(fleet, a), b) == AfterAccepts(fleet, a + b)
  {
    hide AfterAccepts, Look;
    var mid, twice, once := AfterAccepts(fleet, a), AfterAccepts(AfterAccepts(fleet, a), b), AfterAccepts(fleet, a + b);
    forall p, i ensures Look(twice, p, i) == Look(once, p, i) {
      AcceptLooks(fleet, a, p, i);
      AcceptLooks(mid, b, p, i);
      AcceptLooks(fleet, a + b, p, i);
    }
    AcceptKeys(fleet, a);
    AcceptKeys(mid, b);
    AcceptKeys(fleet, a + b);
    SameFleet(twice, once);
  }

  lemma CopiesCompose(fleet: Fleet, a: map<(Pod, Id), Key>, b: map<(Pod, Id), Key>)
    ensures AfterCopies(AfterCopies(fleet, a), b) == AfterCopies(fleet, a + b)
  {
    hide AfterCopies, Look;
    var mid, twice, once := AfterCopies(fleet, a), AfterCopies(AfterCopies(fleet, a), b), AfterCopies(fleet, a + b);
    CopyKeys(fleet, a);
    CopyKeys(mid, b);
    CopyKeys(fleet, a + b);
    forall p, i ensures Look(twice, p, i) == Look(once, p, i) {
      CopyLooks(fleet, a, p, i);
      CopyLooks(mid, b, p, i);
      CopyLooks(fleet, a + b, p, i);
    }
    SameFleet(twice, once);
  }

  /** Step through s: the prefix of length k + 1 ends in s[k]. */
  lemma Prefix<T>(s: seq<T>, k: nat)
    requires k < |s|
    ensures s[..k + 1][..|s[..k + 1]| - 1] == s[..k]
    ensures s[..k + 1][|s[..k + 1]| - 1] == s[k]
  {
  }

  /** _fleet_key_states */
  method FleetKeyStates(m: Masters, clients: seq<Pod>, env: Env) returns (vs: seq<View>, unreachable: seq<Pod>)
    requires Known(m.fleet, clients)
    ensures vs == Views(m.fleet, clients, env)
    ensures unreachable == Unreachable(clients, env)
  {
    vs, unreachable := [], [];
    for k := 0 to |clients|
      invariant vs == Views(m.fleet, clients[..k], env)
      invariant unreachable == Unreachable(clients[..k], env)
    {
      Prefix(clients, k);
      var pod := clients[k];
      if env.reachable(pod) {
        vs := vs + [ViewOf(m.fleet, pod, env)];
      } else {
        unreachable := unreachable + [pod];
      }
    }
    assert clients[..|clients|] == clients;
  }

  /** reconcile_keys: the loop over ids, and in it the loop over the pods that hold
      the key as pending, firing wheel accepts as it goes. */
  method ReconcileKeys(m: Masters, clients: seq<Pod>, env: Env, execute: bool) returns (report: ReconcileReport)
    requires Known(m.fleet, clients)
    modifies m
    ensures m.fleet == if execute then ReconcileStep(old(m.fleet), clients, env) else old(m.fleet)
    ensures report == ReconcileReportOf(old(m.fleet), clients, env, execute)
  {
    hide Plan, Views, AfterAccepts, AcceptsFor, SkipsFor, AcceptsDone, Ended, Ids;
    var vs, unreachable := FleetKeyStates(m, clients, env);
    ViewedClients(m.fleet, clients, env);
    var ids := Sorted(Ids(vs));
    var accepted: seq<(Pod, Id)>, errors: seq<(Pod, Id)> := [], [];
    var skipped: seq<(Id, Reason)> := [];
    ghost var plan: seq<(Pod, Id)> := [];
    NothingYet(m.fleet, env);
    for k := 0 to |ids|
      invariant plan == Accepts(vs, ids[..k]) && skipped == Skips(vs, ids[..k])
      invariant accepted == (if execute then Ended(plan, env, false) else plan)
      invariant errors == if execute then Ended(plan, env, true) else []
      invariant m.fleet == if execute then AfterAccepts(old(m.fleet), AcceptsDone(plan, env)) else old(m.fleet)
      invariant m.fleet.Keys == old(m.fleet).Keys
    {
      Prefix(ids, k);
      var id := ids[k];
      var more;
      accepted, errors, more := ReconcileId(m, clients, vs, id, env, execute, accepted, errors, plan, old(m.fleet));
      plan := plan + AcceptsFor(vs, id);
      skipped := skipped + more;
    }
    assert ids[..|ids|] == ids;
    assert plan == Plan(vs) by { PlanUnfolds(vs); }
    report := ReconcileReport(accepted, skipped, unreachable, errors);
  }

  lemma ViewedClients(fleet: Fleet, clients: seq<Pod>, env: Env)
    requires Known(fleet, clients)
    ensures forall v :: v in Views(fleet, clients, env) ==> v.pod in clients
  {
    ViewsAre(fleet, clients, env);
  }

  lemma PlanUnfolds(vs: seq<View>)
    ensures Plan(vs) == Accepts(vs, Sorted(Ids(vs)))
  {
  }

  lemma NothingYet(fleet: Fleet, env: Env)
    ensures AfterAccepts(fleet, AcceptsDone([], env)) == fleet
    ensures Ended([], env, false) == [] && Ended([], env, true) == []
  {
    assert AcceptsDone([], env) == {};
    forall p, i ensures Look(AfterAccepts(fleet, {}), p, i) == Look(fleet, p, i) { AcceptLooks(fleet, {}, p, i); }
    SameFleet(AfterAccepts(fleet, {}), fleet);
  }

  /** The body of the id loop of reconcile_keys. */
  method ReconcileId(m: Masters, clients: seq<Pod>, vs: seq<View>, id: Id, env: Env, execute: bool,
                     acceptedSoFar: seq<(Pod, Id)>, errorsSoFar: seq<(Pod, Id)>,
                     ghost plan: seq<(Pod, Id)>, ghost start: Fleet)
    returns (accepted: seq<(Pod, Id)>, errors: seq<(Pod, Id)>, skipped: seq<(Id, Reason)>)
    requires Known(start, clients) && m.fleet.Keys == start.Keys
    requires forall v :: v in vs ==> v.pod in clients
    requires acceptedSoFar == (if execute then Ended(plan, env, false) else plan)
    requires errorsSoFar == if execute then Ended(plan, env, true) else []
    requires m.fleet == if execute then AfterAccepts(start, AcceptsDone(plan, env)) else start
    modifies m
    ensures skipped == SkipsFor(vs, id)
    ensures var now := plan + AcceptsFor(vs, id);
            && accepted == (if execute then Ended(now, env, false) else now)
            && errors == (if execute then Ended(now, env, true) else [])
            && m.fleet == if execute then AfterAccepts(start, AcceptsDone(now, env)) else start
    ensures m.fleet.Keys == start.Keys
  {
    hide AfterAccepts, AcceptsDone, Ended, Quarantined, TrustedFingers, FirstDecider, PendingOn, Completes, Matching,
         Mismatching;
    accepted, errors, skipped := acceptedSoFar, errorsSoFar, [];
    if Quarantined(vs, id) {
      var decider := FirstDecider(vs, id);
      skipped := [(id, Explicit(decider.seen[id].tab, decider.pod))];
      assert plan + [] == plan;
      return;
    }
    var pending := PendingOn(vs, id);
    if pending == [] {
      assert plan + [] == plan;
      return;
    }
    if TrustedFingers(vs, id) == {} {
      skipped := [(id, TrustedNowhere)];
      assert plan + [] == plan;
      return;
    }
    ghost var now := plan;
    assert plan + [] == plan;
    NoneMatched(vs, id);
    for j := 0 to |pending|
      invariant now == plan + Matching(vs, pending[..j], id)
      invariant skipped == Mismatching(vs, pending[..j], id)
      invariant accepted == (if execute then Ended(now, env, false) else now)
      invariant errors == if execute then Ended(now, env, true) else []
      invariant m.fleet == if execute then AfterAccepts(start, AcceptsDone(now, env)) else start
      invariant m.fleet.Keys == start.Keys
    {
      MatchStep(vs, pending, id, j);
      var v := pending[j];
      PendingOnAre(vs, id);
      if Completes(vs, v, id) {
        var a := (v.pod, id);
        Extended(start, now, a, env);
        if execute {
          var call := env.accept(v.pod, id);
          m.Accept(v.pod, id, call);
          if call.raised {
            errors := errors + [a];
          } else {
            accepted := accepted + [a];
          }
        } else {
          accepted := accepted + [a];
        }
        Associates(plan, Matching(vs, pending[..j], id), [a]);
        now := now + [a];
      } else {
        skipped := skipped + [(id, Mismatch(v.pod))];
      }
    }
    assert pending[..|pending|] == pending;
  }

  lemma NoneMatched(vs: seq<View>, id: Id)
    ensures Matching(vs, [], id) == [] && Mismatching(vs, [], id) == []
  {
  }

  /** One more pod that holds the key as pending. */
  lemma MatchStep(vs: seq<View>, pending: seq<View>, id: Id, j: nat)
    requires j < |pending|
    ensures Completes(vs, pending[j], id) ==>
              && Matching(vs, pending[..j + 1], id) == Matching(vs, pending[..j], id) + [(pending[j].pod, id)]
              && Mismatching(vs, pending[..j + 1], id) == Mismatching(vs, pending[..j], id)
    ensures !Completes(vs, pending[j], id) ==>
              && Matching(vs, pending[..j + 1], id) == Matching(vs, pending[..j], id)
              && Mismatching(vs, pending[..j + 1], id)
                 == Mismatching(vs, pending[..j], id) + [(id, Mismatch(pending[j].pod))]
  {
    hide Completes;
    Prefix(pending, j);
    EmptyAppends(Matching(vs, pending[..j], id));
    EmptyAppends(Mismatching(vs, pending[..j], id));
  }

  /** One more planned accept. */
  lemma Extended(start: Fleet, plan: seq<(Pod, Id)>, a: (Pod, Id), env: Env)
    ensures forall raised :: Ended(plan + [a], env, raised)
                             == Ended(plan, env, raised) + if env.accept(a.0, a.1).raised == raised then [a] else []
    ensures AfterAccepts(start, AcceptsDone(plan + [a], env))
         == if env.accept(a.0, a.1).applied then AfterAccepts(AfterAccepts(start, AcceptsDone(plan, env)), {a})
            else AfterAccepts(start, AcceptsDone(plan, env))
  {
    assert (plan + [a])[..|plan|] == plan;
    var before, after := AcceptsDone(plan, env), AcceptsDone(plan + [a], env);
    if env.accept(a.0, a.1).applied {
      assert after == before + {a};
      AcceptsCompose(start, before, {a});
    } else {
      assert after == before;
    }
  }

  // ------------------------------------------------------------------ backfill runs

  /** The copies of one candidate that take effect, and those of several. */
  function PodsDone(key: Key, c: Candidate, pods: seq<Pod>, env: Env): map<(Pod, Id), Key> {
    if pods == [] then map[]
    else
      var pod := pods[|pods| - 1];
      var front := PodsDone(key, c, pods[..|pods| - 1], env);
      if env.mapped(pod) && Applied(env.install(pod, c.id)) then front + map[(pod, c.id) := key] else front
  }

  predicate SourcesIn(fleet: Fleet, cs: seq<Candidate>) {
    forall k :: 0 <= k < |cs| ==> cs[k].acceptedOn != [] && Trusts(fleet, cs[k].acceptedOn[0], cs[k].id)
  }

  function DoneBy(fleet: Fleet, cs: seq<Candidate>, env: Env): map<(Pod, Id), Key>
    requires SourcesIn(fleet, cs)
  {
    if cs == [] then map[]
    else
      var c := cs[|cs| - 1];
      var front := DoneBy(fleet, cs[..|cs| - 1], env);
      if Sourced(c, env) then front + PodsDone(fleet[c.acceptedOn[0]][c.id].key, c, c.absentOn, env) else front
  }

  lemma {:induction false} PodsDoneAre(key: Key, c: Candidate, pods: seq<Pod>, env: Env, p: Pod, i: Id)
    ensures (p, i) in PodsDone(key, c, pods, env) <==>
              i == c.id && p in pods && env.mapped(p) && Applied(env.install(p, i))
    ensures (p, i) in PodsDone(key, c, pods, env) ==> PodsDone(key, c, pods, env)[(p, i)] == key
  {
    if pods != [] { PodsDoneAre(key, c, pods[..|pods| - 1], env, p, i); }
  }

  lemma {:induction false} DoneByAre(fleet: Fleet, cs: seq<Candidate>, env: Env, p: Pod, i: Id)
    requires SourcesIn(fleet, cs)
    requires forall c, d :: c in cs && d in cs && c.id == d.id ==> c == d
    ensures (p, i) in DoneBy(fleet, cs, env) <==>
              (exists c :: c in cs && c.id == i && p in c.absentOn && Sourced(c, env))
              && env.mapped(p) && Applied(env.install(p, i))
    ensures forall c :: c in cs && c.id == i && (p, i) in DoneBy(fleet, cs, env) ==>
              DoneBy(fleet, cs, env)[(p, i)] == fleet[c.acceptedOn[0]][i].key
  {
    hide PodsDone, Sourced, Applied;
    if cs != [] {
      var front, c := cs[..|cs| - 1], cs[|cs| - 1];
      DoneByAre(fleet, front, env, p, i);
      assert forall d :: d in cs <==> d in front || d == c;
      PodsDoneAre(fleet[c.acceptedOn[0]][c.id].key, c, c.absentOn, env, p, i);
    }
  }

  /** The candidates of a reading have sources that are really accepted, and their
      copies are exactly those of BackfillStep. */
  lemma CandidateSources(fleet: Fleet, clients: seq<Pod>, env: Env)
    requires Known(fleet, clients)
    ensures var vs := Views(fleet, clients, env);
            SourcesIn(fleet, Candidates(vs, Sorted(Ids(vs))))
  {
    var vs := Views(fleet, clients, env);
    hide Views, Quarantined, Unanimous, Ids, Trusts;
    var cs := Candidates(vs, Sorted(Ids(vs)));
    CandidatesAre(vs, Sorted(Ids(vs)));
    forall k | 0 <= k < |cs| ensures cs[k].acceptedOn != [] && Trusts(fleet, cs[k].acceptedOn[0], cs[k].id) {
      assert cs[k] in cs;
      var q := Source(vs, cs[k].id);
      assert q in AcceptedOn(vs, cs[k].id);
      AcceptedTrusts(fleet, clients, env, q, cs[k].id);
    }
  }

  lemma AcceptedTrusts(fleet: Fleet, clients: seq<Pod>, env: Env, p: Pod, i: Id)
    requires Known(fleet, clients) && p in AcceptedOn(Views(fleet, clients, env), i)
    ensures Trusts(fleet, p, i)
  {
    hide Views;
    ViewsAre(fleet, clients, env);
  }

  lemma DoneAt(fleet: Fleet, clients: seq<Pod>, env: Env, p: Pod, i: Id)
    requires Known(fleet, clients)
    requires SourcesIn(fleet, Candidates(Views(fleet, clients, env), Sorted(Ids(Views(fleet, clients, env)))))
    ensures var vs := Views(fleet, clients, env);
            var got := DoneBy(fleet, Candidates(vs, Sorted(Ids(vs))), env);
            var done := CopiesDone(fleet, clients, env);
            && ((p, i) in got <==> (p, i) in done)
            && ((p, i) in got ==> got[(p, i)] == done[(p, i)])
  {
    hide Views, CopyPlanned, DoneBy, SafeId;
    var vs := Views(fleet, clients, env);
    var cs := Candidates(vs, Sorted(Ids(vs)));
    CandidatesAre(vs, Sorted(Ids(vs)));
    DoneByAre(fleet, cs, env, p, i);
    if (p, i) in DoneBy(fleet, cs, env) {
      var c :| c in cs && c.id == i && p in c.absentOn && Sourced(c, env);
      assert c == CandidateOf(vs, i) && Copied(vs, env, p, i);
      AbsentIsClient(fleet, clients, env, p, i);
    }
    if (p, i) in CopiesDone(fleet, clients, env) {
      assert Copied(vs, env, p, i);
      var c := CandidateOf(vs, i);
      assert c in cs && p in c.absentOn && Sourced(c, env);
    }
  }

  lemma AbsentIsClient(fleet: Fleet, clients: seq<Pod>, env: Env, p: Pod, i: Id)
    requires Known(fleet, clients) && p in AbsentOn(Views(fleet, clients, env), i)
    ensures p in clients
  {
    hide Views;
    ViewsAre(fleet, clients, env);
  }

  lemma DoneByIsCopiesDone(fleet: Fleet, clients: seq<Pod>, env: Env)
    requires Known(fleet, clients)
    requires SourcesIn(fleet, Candidates(Views(fleet, clients, env), Sorted(Ids(Views(fleet, clients, env)))))
    ensures DoneBy(fleet, Candidates(Views(fleet, clients, env), Sorted(Ids(Views(fleet, clients, env)))), env)
         == CopiesDone(fleet, clients, env)
  {
    hide Views, Candidates, DoneBy, CopiesDone, SourcesIn, Ids;
    var got := DoneBy(fleet, Candidates(Views(fleet, clients, env), Sorted(Ids(Views(fleet, clients, env)))), env);
    var done := CopiesDone(fleet, clients, env);
    forall k: (Pod, Id) ensures (k in got <==> k in done) && (k in got ==> got[k] == done[k]) {
      DoneAt(fleet, clients, env, k.0, k.1);
    }
  }

  /** _backfill_candidates */
  method BackfillCandidates(vs: seq<View>) returns (planned: seq<Candidate>, skipped: seq<(Id, Reason)>)
    ensures planned == Candidates(vs, Sorted(Ids(vs)))
    ensures skipped == CopySkips(vs, Sorted(Ids(vs)))
  {
    hide Quarantined, AcceptedOn, AbsentOn, Unanimous, Ids;
    var ids := Sorted(Ids(vs));
    planned, skipped := [], [];
    for k := 0 to |ids|
      invariant planned == Candidates(vs, ids[..k])
      invariant skipped == CopySkips(vs, ids[..k])
    {
      Prefix(ids, k);
      var id := ids[k];
      if !Quarantined(vs, id) {
        if AcceptedOn(vs, id) != {} && AbsentOn(vs, id) != {} {
          if !Unanimous(vs, id) {
            skipped := skipped + [(id, Disagree)];
          } else {
            planned := planned + [CandidateOf(vs, id)];
          }
        }
      }
    }
    assert ids[..|ids|] == ids;
  }

  lemma Merges<K, V>(a: map<K, V>, b: map<K, V>, c: map<K, V>)
    ensures (a + b) + c == a + (b + c)
  {
  }

  lemma NoPods(c: Candidate, env: Env)
    ensures Backfilled(c, [], env) == [] && Failed(c, [], env) == [] && UnmappedAt(c, [], env) == []
  {
  }

  lemma NoPodsDone(key: Key, c: Candidate, env: Env, done: map<(Pod, Id), Key>)
    ensures done + PodsDone(key, c, [], env) == done
  {
    assert PodsDone(key, c, [], env) == map[];
  }

  /** What one more target pod adds to a candidate's outcomes. */
  lemma OnePod(key: Key, c: Candidate, env: Env, j: nat)
    requires j < |c.absentOn|
    ensures var (before, after, pod) := (c.absentOn[..j], c.absentOn[..j + 1], c.absentOn[j]);
            var mapped, result := env.mapped(pod), env.install(pod, c.id);
            && Backfilled(c, after, env)
               == Backfilled(c, before, env) + (if mapped && result == Verified(Listed) then [(pod, c.id)] else [])
            && Failed(c, after, env)
               == Failed(c, before, env)
                  + (if mapped && result != Verified(Listed) then [(pod, c.id, FailureOf(result))] else [])
            && UnmappedAt(c, after, env)
               == UnmappedAt(c, before, env) + (if mapped then [] else [(c.id, Unmapped(pod))])
            && PodsDone(key, c, after, env)
               == PodsDone(key, c, before, env) + (if mapped && Applied(result) then map[(pod, c.id) := key] else map[])
  {
    Prefix(c.absentOn, j);
    assert PodsDone(key, c, c.absentOn[..j], env) + map[] == PodsDone(key, c, c.absentOn[..j], env);
    EmptyAppends(Backfilled(c, c.absentOn[..j], env));
    EmptyAppends(Failed(c, c.absentOn[..j], env));
    EmptyAppends(UnmappedAt(c, c.absentOn[..j], env));
  }

  /** _backfill_one: read the accepted key from its source, then install, check and
      re-read on each absent pod. */
  method BackfillOne(m: Masters, c: Candidate, env: Env, ghost start: Fleet, ghost done: map<(Pod, Id), Key>)
    returns (backfilled: seq<(Pod, Id)>, skipped: seq<(Id, Reason)>, errors: seq<(Pod, Id, Failure)>)
    requires c.acceptedOn != [] && Trusts(start, c.acceptedOn[0], c.id)
    requires Look(m.fleet, c.acceptedOn[0], c.id) == Look(start, c.acceptedOn[0], c.id)
    requires forall p :: p in c.absentOn ==> p in start
    requires m.fleet.Keys == start.Keys && m.fleet == AfterCopies(start, done)
    modifies m
    ensures backfilled == if Sourced(c, env) then Backfilled(c, c.absentOn, env) else []
    ensures errors == if Sourced(c, env) then Failed(c, c.absentOn, env) else []
    ensures skipped == SkippedFor(c, env)
    ensures m.fleet.Keys == start.Keys
    ensures m.fleet == AfterCopies(start, if Sourced(c, env)
                         then done + PodsDone(start[c.acceptedOn[0]][c.id].key, c, c.absentOn, env) else done)
  {
    hide AfterCopies, SafeId, Backfilled, Failed, UnmappedAt, PodsDone;
    NoPods(c, env);
    backfilled, skipped, errors := [], [], [];
    if !SafeId(c.id) {
      skipped := [(c.id, Unsafe)];
      return;
    }
    var source := c.acceptedOn[0];
    if !env.readable(source, c.id) {
      skipped := [(c.id, Unreadable(source))];
      return;
    }
    var key := m.fleet[source][c.id].key;
    ghost var now := done;
    NoPodsDone(key, c, env, done);
    for j := 0 to |c.absentOn|
      invariant backfilled == Backfilled(c, c.absentOn[..j], env)
      invariant errors == Failed(c, c.absentOn[..j], env)
      invariant skipped == UnmappedAt(c, c.absentOn[..j], env)
      invariant now == done + PodsDone(key, c, c.absentOn[..j], env)
      invariant m.fleet == AfterCopies(start, now)
      invariant m.fleet.Keys == start.Keys
    {
      OnePod(key, c, env, j);
      var pod := c.absentOn[j];
      if !env.mapped(pod) {
        skipped := skipped + [(c.id, Unmapped(pod))];
      } else {
        var result := env.install(pod, c.id);
        CopiesCompose(start, now, map[(pod, c.id) := key]);
        m.InstallKey(pod, c.id, key, result);
        if Applied(result) {
          Merges(done, PodsDone(key, c, c.absentOn[..j], env), map[(pod, c.id) := key]);
          now := now + map[(pod, c.id) := key];
        }
        if result.ExecRaised? {
          errors := errors + [(pod, c.id, ExecFailed)];
        } else if result.Unverified? {
          errors := errors + [(pod, c.id, CopyUnverified)];
        } else if result.reread == Unanswered {
          errors := errors + [(pod, c.id, RereadFailed)];
        } else if result.reread == Listed {
          backfilled := backfilled + [(pod, c.id)];
        } else {
          errors := errors + [(pod, c.id, NotAcceptedAfterCopy)];
        }
      }
    }
    assert c.absentOn[..|c.absentOn|] == c.absentOn;
  }

  /** backfill_absent_keys */
  method BackfillAbsentKeys(m: Masters, clients: seq<Pod>, env: Env, dryRun: bool, available: bool)
    returns (report: BackfillReport)
    requires Known(m.fleet, clients)
    modifies m
    ensures m.fleet == if dryRun || !available then old(m.fleet) else BackfillStep(old(m.fleet), clients, env)
    ensures report == BackfillReportOf(old(m.fleet), clients, env, dryRun, available)
  {
    hide Views, AfterCopies, Candidates, CopiesDone, Ids, CopySkips, PlanPairs, SourcesIn;
    ghost var start := m.fleet;
    var vs, unreachable := FleetKeyStates(m, clients, env);
    var planned, skipped := BackfillCandidates(vs);
    CandidateSources(start, clients, env);
    CandidatesSound(vs, Sorted(Ids(vs)));
    DoneByIsCopiesDone(start, clients, env);
    CandidateTargets(start, clients, env);
    var plan := PlanPairs(planned);
    NothingCopied(start);
    if dryRun || planned == [] {
      assert skipped + [] == skipped;
      return BackfillReport(plan, [], skipped, [], unreachable, false);
    }
    if !available {
      return BackfillReport(plan, [], skipped, [], unreachable, true);
    }
    var backfilled: seq<(Pod, Id)>, errors: seq<(Pod, Id, Failure)> := [], [];
    var more: seq<(Id, Reason)> := [];
    SourcesFront(start, planned, 0);
    for k := 0 to |planned|
      invariant backfilled == AllBackfilled(planned[..k], env)
      invariant errors == AllFailed(planned[..k], env)
      invariant more == AllSkipped(planned[..k], env)
      invariant m.fleet.Keys == start.Keys
      invariant SourcesIn(start, planned[..k]) && m.fleet == AfterCopies(start, DoneBy(start, planned[..k], env))
    {
      Prefix(planned, k);
      SourceUntouched(start, clients, env, k);
      SourcesFront(start, planned, k + 1);
      var done, skip, errs := BackfillOne(m, planned[k], env, start, DoneBy(start, planned[..k], env));
      backfilled, errors, more := backfilled + done, errors + errs, more + skip;
    }
    assert planned[..|planned|] == planned;
    report := BackfillReport(plan, backfilled, skipped + more, errors, unreachable, false);
  }

  lemma SourcesFront(fleet: Fleet, cs: seq<Candidate>, k: nat)
    requires SourcesIn(fleet, cs) && k <= |cs|
    ensures SourcesIn(fleet, cs[..k])
    ensures k > 0 ==> cs[k - 1].acceptedOn != [] && Trusts(fleet, cs[k - 1].acceptedOn[0], cs[k - 1].id)
  {
  }

  lemma NothingCopied(fleet: Fleet)
    ensures AfterCopies(fleet, map[]) == fleet
  {
    forall p, i ensures Look(AfterCopies(fleet, map[]), p, i) == Look(fleet, p, i) { CopyLooks(fleet, map[], p, i); }
    CopyKeys(fleet, map[]);
    SameFleet(AfterCopies(fleet, map[]), fleet);
  }

  /** The targets of a candidate are client pods that lack the key. */
  lemma CandidateTargets(fleet: Fleet, clients: seq<Pod>, env: Env)
    requires Known(fleet, clients)
    ensures var vs := Views(fleet, clients, env);
            forall c, p :: c in Candidates(vs, Sorted(Ids(vs))) && p in c.absentOn ==>
                p in fleet && Look(fleet, p, c.id).None?
  {
    var vs := Views(fleet, clients, env);
    hide Views, CopyPlanned, Ids, Candidates, CandidateOf, AbsentOn, Look;
    var cs := Candidates(vs, Sorted(Ids(vs)));
    CandidatesAre(vs, Sorted(Ids(vs)));
    forall c, p | c in cs && p in c.absentOn ensures p in fleet && Look(fleet, p, c.id).None? {
      CandidateAbsent(vs, c.id);
      AbsentLacks(fleet, clients, env, p, c.id);
    }
  }

  lemma CandidateAbsent(vs: seq<View>, id: Id)
    requires CopyPlanned(vs, id)
    ensures CandidateOf(vs, id).id == id
    ensures forall p :: p in CandidateOf(vs, id).absentOn <==> p in AbsentOn(vs, id)
  {
  }

  lemma AbsentLacks(fleet: Fleet, clients: seq<Pod>, env: Env, p: Pod, i: Id)
    requires Known(fleet, clients) && p in AbsentOn(Views(fleet, clients, env), i)
    ensures p in fleet && Look(fleet, p, i).None?
  {
    hide Views;
    ViewsAre(fleet, clients, env);
  }

  /** Copies already made in this pass leave every source as it was read. */
  lemma SourceUntouched(fleet: Fleet, clients: seq<Pod>, env: Env, k: nat)
    requires Known(fleet, clients)
    requires var vs := Views(fleet, clients, env);
             var cs := Candidates(vs, Sorted(Ids(vs)));
             SourcesIn(fleet, cs) && k < |cs|
    ensures var vs := Views(fleet, clients, env);
            var cs := Candidates(vs, Sorted(Ids(vs)));
            Look(AfterCopies(fleet, DoneBy(fleet, cs[..k], env)), cs[k].acceptedOn[0], cs[k].id)
            == Look(fleet, cs[k].acceptedOn[0], cs[k].id)
  {
    hide Views, Candidates, AfterCopies;
    var vs := Views(fleet, clients, env);
    var cs := Candidates(vs, Sorted(Ids(vs)));
    var p, i := cs[k].acceptedOn[0], cs[k].id;
    CandidatesAre(vs, Sorted(Ids(vs)));
    CandidateTargets(fleet, clients, env);
    DoneByAre(fleet, cs[..k], env, p, i);
    CopyLooks(fleet, DoneBy(fleet, cs[..k], env), p, i);
  }
}
