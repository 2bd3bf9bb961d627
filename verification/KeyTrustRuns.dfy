/** What reconcile and backfill passes keep and where they lead: trust is completed
    and never created, quarantine holds, and a fully successful round converges. */
module KeyTrustRuns {
  import opened Options
  import opened Text
  import opened KeyTrust

  // ------------------------------------------------------------ plans against truth

  predicate Known(fleet: Fleet, clients: seq<Pod>) {
    forall p :: p in clients ==> p in fleet
  }

  /** A reachable client pod rejects or denies id. */
  predicate Barred(fleet: Fleet, clients: seq<Pod>, env: Env, id: Id) {
    exists q :: q in clients && env.reachable(q) && Look(fleet, q, id).Some?
                && Look(fleet, q, id).value.tab in {Rejected, Denied}
  }

  lemma BarredIsQuarantined(fleet: Fleet, clients: seq<Pod>, env: Env, id: Id)
    requires Known(fleet, clients)
    ensures Barred(fleet, clients, env, id) <==> Quarantined(Views(fleet, clients, env), id)
  {
    var vs := Views(fleet, clients, env);
    ViewsAre(fleet, clients, env);
    if Barred(fleet, clients, env, id) {
      var q :| q in clients && env.reachable(q) && Look(fleet, q, id).Some?
               && Look(fleet, q, id).value.tab in {Rejected, Denied};
      assert ViewOf(fleet, q, env) in vs && Quarantines(ViewOf(fleet, q, env), id);
    }
  }

  /** The fingerprints some reachable pod trusts for id and shows. */
  predicate Shown(fleet: Fleet, clients: seq<Pod>, env: Env, id: Id, finger: string) {
    exists q :: q in clients && env.reachable(q) && env.fingered(q, id)
                && Trusts(fleet, q, id) && Look(fleet, q, id).value.key.finger == finger
  }

  lemma ShownIsTrusted(fleet: Fleet, clients: seq<Pod>, env: Env, id: Id, finger: string)
    requires Known(fleet, clients)
    ensures finger in TrustedFingers(Views(fleet, clients, env), id) <==> Shown(fleet, clients, env, id, finger)
  {
    var vs := Views(fleet, clients, env);
    ViewsAre(fleet, clients, env);
    if Shown(fleet, clients, env, id, finger) {
      var q :| q in clients && env.reachable(q) && env.fingered(q, id)
               && Trusts(fleet, q, id) && Look(fleet, q, id).value.key.finger == finger;
      assert ViewOf(fleet, q, env) in vs;
    }
  }

  /** When a pass accepts id on p, in terms of the true key directories. */
  lemma PlannedIs(fleet: Fleet, clients: seq<Pod>, env: Env, p: Pod, id: Id)
    requires Known(fleet, clients)
    ensures (p, id) in Plan(Views(fleet, clients, env)) <==>
              && p in clients && env.reachable(p) && env.fingered(p, id)
              && Look(fleet, p, id).Some? && Look(fleet, p, id).value.tab == Pending
              && Shown(fleet, clients, env, id, Look(fleet, p, id).value.key.finger)
              && !Barred(fleet, clients, env, id)
  {
    var vs := Views(fleet, clients, env);
    ViewsAre(fleet, clients, env);
    PlanIs(vs);
    BarredIsQuarantined(fleet, clients, env, id);
    if p in fleet && id in fleet[p] {
      var finger := fleet[p][id].key.finger;
      ShownIsTrusted(fleet, clients, env, id, finger);
      if p in clients && env.reachable(p) {
        var v := ViewOf(fleet, p, env);
        assert v in vs && (Completes(vs, v, id) <==>
                fleet[p][id].tab == Pending && env.fingered(p, id) && finger in TrustedFingers(vs, id));
      }
    }
  }

  /** Every accepted copy of id on a reachable pod shows finger, and there is one. */
  predicate Agreed(fleet: Fleet, clients: seq<Pod>, env: Env, id: Id, finger: string) {
    && (exists q :: q in clients && env.reachable(q) && Trusts(fleet, q, id))
    && forall q :: q in clients && env.reachable(q) && Trusts(fleet, q, id) ==>
         env.fingered(q, id) && Look(fleet, q, id).value.key.finger == finger
  }

  lemma UnanimousIsAgreed(fleet: Fleet, clients: seq<Pod>, env: Env, id: Id)
    requires Known(fleet, clients)
    requires AcceptedOn(Views(fleet, clients, env), id) != {} && Unanimous(Views(fleet, clients, env), id)
    ensures Agreed(fleet, clients, env, id, TheFinger(Views(fleet, clients, env), id))
  {
    hide Views;
    var vs := Views(fleet, clients, env);
    ViewsAre(fleet, clients, env);
    var f := TheFinger(vs, id);
    var p :| p in AcceptedOn(vs, id);
    assert Trusts(fleet, p, id) && p in clients && env.reachable(p);
    forall q | q in clients && env.reachable(q) && Trusts(fleet, q, id)
      ensures env.fingered(q, id) && Look(fleet, q, id).value.key.finger == f
    {
      var v := ViewOf(fleet, q, env);
      assert v in vs && v.seen[id].finger in AcceptedFingers(vs, id);
    }
  }

  lemma AgreedIsUnanimous(fleet: Fleet, clients: seq<Pod>, env: Env, id: Id, finger: string)
    requires Known(fleet, clients) && Agreed(fleet, clients, env, id, finger)
    ensures AcceptedOn(Views(fleet, clients, env), id) != {} && Unanimous(Views(fleet, clients, env), id)
  {
    hide Views;
    var vs := Views(fleet, clients, env);
    ViewsAre(fleet, clients, env);
    var q :| q in clients && env.reachable(q) && Trusts(fleet, q, id);
    var v := ViewOf(fleet, q, env);
    assert v in vs && TabOn(v, id) == Some(Accepted);
    assert v.pod in AcceptedOn(vs, id) && v.seen[id].finger in AcceptedFingers(vs, id);
    assert AcceptedFingers(vs, id) == {Some(finger)};
  }

  /** What a carried-out copy means in terms of the true key directories. */
  lemma CopiedIs(fleet: Fleet, clients: seq<Pod>, env: Env, p: Pod, id: Id)
    requires Known(fleet, clients)
    requires (p, id) in CopiesDone(fleet, clients, env)
    ensures p in clients && Look(fleet, p, id).None?
    ensures !Barred(fleet, clients, env, id)
    ensures var key := CopiesDone(fleet, clients, env)[(p, id)];
            (id, key.finger) in TrustedPairs(fleet) && Agreed(fleet, clients, env, id, key.finger)
  {
    var vs := Views(fleet, clients, env);
    ViewsAre(fleet, clients, env);
    BarredIsQuarantined(fleet, clients, env, id);
    UnanimousIsAgreed(fleet, clients, env, id);
    var s := Source(vs, id);
    assert s in clients && Trusts(fleet, s, id);
  }

  // ------------------------------------------------------------- what one pass keeps

  lemma AcceptsKeepTrust(fleet: Fleet, done: set<(Pod, Id)>)
    requires forall p, i :: (p, i) in done && Look(fleet, p, i).Some? && Look(fleet, p, i).value.tab == Pending ==>
               (i, Look(fleet, p, i).value.key.finger) in TrustedPairs(fleet)
    ensures TrustedPairs(AfterAccepts(fleet, done)) == TrustedPairs(fleet)
  {
    var after := AfterAccepts(fleet, done);
    forall t | t in TrustedPairs(after) ensures t in TrustedPairs(fleet) {
      var p, i :| p in after && i in after[p] && after[p][i].tab == Accepted && t == (i, after[p][i].key.finger);
      assert Look(fleet, p, i).Some?;
    }
    forall t | t in TrustedPairs(fleet) ensures t in TrustedPairs(after) {
      var p, i :| p in fleet && i in fleet[p] && fleet[p][i].tab == Accepted && t == (i, fleet[p][i].key.finger);
      assert after[p][i] == fleet[p][i];
    }
  }

  lemma CopyLooks(fleet: Fleet, done: map<(Pod, Id), Key>, p: Pod, i: Id)
    ensures Look(AfterCopies(fleet, done), p, i)
         == if p in fleet && (p, i) in done then Some(Copy(Accepted, done[(p, i)])) else Look(fleet, p, i)
  {
    if i in CopiesTo(done, p) {
      var k :| k in done && k.0 == p && k.1 == i;
      assert k == (p, i);
    }
    if (p, i) in done { assert (p, i).1 in CopiesTo(done, p); }
  }

  lemma AcceptLooks(fleet: Fleet, done: set<(Pod, Id)>, p: Pod, i: Id)
    ensures var before := Look(fleet, p, i);
            Look(AfterAccepts(fleet, done), p, i)
            == if (p, i) in done && before.Some? && before.value.tab == Pending
               then Some(Copy(Accepted, before.value.key)) else before
  {
  }

  /** Fleets are equal when every copy is. */
  lemma SameFleet(a: Fleet, b: Fleet)
    requires a.Keys == b.Keys
    requires forall p, i :: Look(a, p, i) == Look(b, p, i)
    ensures a == b
  {
    forall p | p in a ensures a[p] == b[p] {
      forall i ensures i in a[p] <==> i in b[p] { assert Look(a, p, i) == Look(b, p, i); }
      forall i | i in a[p] ensures a[p][i] == b[p][i] { assert Look(a, p, i) == Look(b, p, i); }
    }
  }

  /** Membership in the trusted pairs, by the pod that holds the copy. */
  lemma TrustedAt(fleet: Fleet, p: Pod, i: Id)
    ensures Trusts(fleet, p, i) ==> (i, Look(fleet, p, i).value.key.finger) in TrustedPairs(fleet)
  {
  }

  lemma TrustedSomewhere(fleet: Fleet, t: (Id, string)) returns (p: Pod)
    requires t in TrustedPairs(fleet)
    ensures Trusts(fleet, p, t.0) && Look(fleet, p, t.0).value.key.finger == t.1
  {
    var q, i :| q in fleet && i in fleet[q] && fleet[q][i].tab == Accepted && t == (i, fleet[q][i].key.finger);
    p := q;
  }

  lemma CopiesKeepTrust(fleet: Fleet, done: map<(Pod, Id), Key>)
    requires forall p, i :: (p, i) in done ==>
            Look(fleet, p, i).None? && (i, done[(p, i)].finger) in TrustedPairs(fleet)
    ensures TrustedPairs(AfterCopies(fleet, done)) == TrustedPairs(fleet)
  {
    var after := AfterCopies(fleet, done);
    forall t | t in TrustedPairs(after) ensures t in TrustedPairs(fleet) {
      var p := TrustedSomewhere(after, t);
      CopyLooks(fleet, done, p, t.0);
      TrustedAt(fleet, p, t.0);
    }
    forall t | t in TrustedPairs(fleet) ensures t in TrustedPairs(after) {
      var p := TrustedSomewhere(fleet, t);
      CopyLooks(fleet, done, p, t.0);
      TrustedAt(after, p, t.0);
    }
  }

  // ---------------------------------------------------------------------------- runs

  datatype Pass = Reconcile(env: Env) | Backfill(env: Env)

  function Step(fleet: Fleet, clients: seq<Pod>, pass: Pass): (after: Fleet)
    requires Known(fleet, clients)
    ensures after.Keys == fleet.Keys
  {
    match pass
    case Reconcile(env) => ReconcileStep(fleet, clients, env)
    case Backfill(env) => BackfillStep(fleet, clients, env)
  }

  function Run(fleet: Fleet, clients: seq<Pod>, passes: seq<Pass>): (after: Fleet)
    requires Known(fleet, clients)
    ensures after.Keys == fleet.Keys
  {
    if passes == [] then fleet else Run(Step(fleet, clients, passes[0]), clients, passes[1..])
  }

  /** What a backfill pass leaves on one pod. */
  lemma CopyStep(fleet: Fleet, clients: seq<Pod>, env: Env, p: Pod, id: Id)
    requires Known(fleet, clients)
    ensures var done := CopiesDone(fleet, clients, env);
            Look(Step(fleet, clients, Backfill(env)), p, id)
            == if (p, id) in done then Some(Copy(Accepted, done[(p, id)])) else Look(fleet, p, id)
  {
    hide CopiesDone;
    if (p, id) in CopiesDone(fleet, clients, env) { CopiedIs(fleet, clients, env, p, id); }
    CopyLooks(fleet, CopiesDone(fleet, clients, env), p, id);
  }

  /** What a reconcile pass leaves on one pod. */
  lemma MoveStep(fleet: Fleet, clients: seq<Pod>, env: Env, p: Pod, id: Id)
    requires Known(fleet, clients)
    ensures var done := AcceptsDone(Plan(Views(fleet, clients, env)), env);
            var before, after := Look(fleet, p, id), Look(Step(fleet, clients, Reconcile(env)), p, id);
            if (p, id) in done then
              && p in clients && before.Some? && before.value.tab == Pending
              && !Barred(fleet, clients, env, id)
              && after == Some(Copy(Accepted, before.value.key))
            else after == before
  {
    hide Plan, Views;
    PlannedIs(fleet, clients, env, p, id);
  }

  /** One pass neither adds nor loses a trusted (id, fingerprint) pair. */
  lemma StepKeepsTrust(fleet: Fleet, clients: seq<Pod>, pass: Pass)
    requires Known(fleet, clients)
    ensures TrustedPairs(Step(fleet, clients, pass)) == TrustedPairs(fleet)
  {
    var env := pass.env;
    match pass
    case Reconcile(_) =>
      var done := AcceptsDone(Plan(Views(fleet, clients, env)), env);
      forall p, i | (p, i) in done && Look(fleet, p, i).Some? && Look(fleet, p, i).value.tab == Pending
        ensures (i, Look(fleet, p, i).value.key.finger) in TrustedPairs(fleet)
      {
        PlannedIs(fleet, clients, env, p, i);
      }
      AcceptsKeepTrust(fleet, done);
    case Backfill(_) =>
      var done := CopiesDone(fleet, clients, env);
      forall p, i | (p, i) in done
        ensures Look(fleet, p, i).None? && (i, done[(p, i)].finger) in TrustedPairs(fleet)
      {
        CopiedIs(fleet, clients, env, p, i);
      }
      CopiesKeepTrust(fleet, done);
  }

  /** Complete trust, never create it: over any run of passes, whatever is
      unreachable, unreadable or failing in each, the fleet-wide set of trusted
      pairs is the one it started with. */
  lemma {:induction false} RunKeepsTrust(fleet: Fleet, clients: seq<Pod>, passes: seq<Pass>)
    requires Known(fleet, clients)
    ensures TrustedPairs(Run(fleet, clients, passes)) == TrustedPairs(fleet)
  {
    if passes != [] {
      StepKeepsTrust(fleet, clients, passes[0]);
      RunKeepsTrust(Step(fleet, clients, passes[0]), clients, passes[1..]);
    }
  }

  /** An id rejected or denied on a reachable pod gains no accepted pod in that pass. */
  lemma QuarantineHolds(fleet: Fleet, clients: seq<Pod>, pass: Pass, id: Id, p: Pod)
    requires Known(fleet, clients)
    requires Barred(fleet, clients, pass.env, id)
    ensures Look(Step(fleet, clients, pass), p, id) == Look(fleet, p, id)
  {
    hide Step, CopiesDone, AcceptsDone;
    match pass
    case Reconcile(env) => MoveStep(fleet, clients, env, p, id);
    case Backfill(env) =>
      CopyStep(fleet, clients, env, p, id);
      if (p, id) in CopiesDone(fleet, clients, env) { CopiedIs(fleet, clients, env, p, id); }
  }

  /** A pass only ever moves a pending copy to accepted or adds an accepted one: no
      accepted, rejected or denied copy changes, and no key material is replaced. */
  lemma StepIsForward(fleet: Fleet, clients: seq<Pod>, pass: Pass, id: Id, p: Pod)
    requires Known(fleet, clients)
    ensures var before, after := Look(fleet, p, id), Look(Step(fleet, clients, pass), p, id);
            || after == before
            || (before.None? && after.Some? && after.value.tab == Accepted)
            || (before.Some? && before.value.tab == Pending && after == Some(Copy(Accepted, before.value.key)))
  {
    hide Step, CopiesDone, AcceptsDone;
    match pass
    case Reconcile(env) => MoveStep(fleet, clients, env, p, id);
    case Backfill(env) =>
      CopyStep(fleet, clients, env, p, id);
      if (p, id) in CopiesDone(fleet, clients, env) { CopiedIs(fleet, clients, env, p, id); }
  }

  /** Over any run: an id barred throughout by a pod that stays reachable ends with
      exactly the copies it had. */
  lemma {:induction false} RunKeepsQuarantine(fleet: Fleet, clients: seq<Pod>, passes: seq<Pass>, id: Id,
                                             q: Pod, p: Pod)
    requires Known(fleet, clients)
    requires q in clients && Look(fleet, q, id).Some? && Look(fleet, q, id).value.tab in {Rejected, Denied}
    requires forall k :: 0 <= k < |passes| ==> passes[k].env.reachable(q)
    ensures Look(Run(fleet, clients, passes), p, id) == Look(fleet, p, id)
  {
    if passes != [] {
      assert passes[0].env.reachable(q);
      assert Barred(fleet, clients, passes[0].env, id);
      QuarantineHolds(fleet, clients, passes[0], id, p);
      QuarantineHolds(fleet, clients, passes[0], id, q);
      forall k | 0 <= k < |passes[1..]|
        ensures passes[1..][k].env.reachable(q)
      {
        assert passes[1..][k] == passes[k + 1];
      }
      RunKeepsQuarantine(Step(fleet, clients, passes[0]), clients, passes[1..], id, q, p);
    }
  }

  // --------------------------------------------------------------------- convergence

  /** The (pod, id) pairs not yet accepted: what the passes work off. */
  function NotAccepted(fleet: Fleet, clients: seq<Pod>, ids: set<Id>): set<(Pod, Id)> {
    set p, i | p in clients && i in ids && !Trusts(fleet, p, i) :: (p, i)
  }

  /** The pairs one pass changed. */
  function Worked(fleet: Fleet, clients: seq<Pod>, pass: Pass): set<(Pod, Id)>
    requires Known(fleet, clients)
  {
    match pass
    case Reconcile(env) => AcceptsDone(Plan(Views(fleet, clients, env)), env)
    case Backfill(env) => CopiesDone(fleet, clients, env).Keys
  }

  lemma WorkedPair(fleet: Fleet, clients: seq<Pod>, pass: Pass, p: Pod, i: Id)
    requires Known(fleet, clients)
    ensures (p, i) in Worked(fleet, clients, pass) ==> p in clients && !Trusts(fleet, p, i)
    ensures Trusts(Step(fleet, clients, pass), p, i) <==>
              Trusts(fleet, p, i) || (p, i) in Worked(fleet, clients, pass)
  {
    hide Step, CopiesDone, AcceptsDone;
    match pass
    case Reconcile(env) => MoveStep(fleet, clients, env, p, i);
    case Backfill(env) =>
      CopyStep(fleet, clients, env, p, i);
      if (p, i) in CopiesDone(fleet, clients, env) { CopiedIs(fleet, clients, env, p, i); }
  }

  /** Every action that takes effect removes its own pair, and only that, from the
      pairs not yet accepted: the count shrinks by exactly the actions done. */
  lemma PassShrinks(fleet: Fleet, clients: seq<Pod>, pass: Pass, ids: set<Id>)
    requires Known(fleet, clients)
    requires forall p, i :: (p, i) in Worked(fleet, clients, pass) ==> i in ids
    ensures Worked(fleet, clients, pass) <= NotAccepted(fleet, clients, ids)
    ensures NotAccepted(Step(fleet, clients, pass), clients, ids)
         == NotAccepted(fleet, clients, ids) - Worked(fleet, clients, pass)
    ensures |NotAccepted(Step(fleet, clients, pass), clients, ids)|
         == |NotAccepted(fleet, clients, ids)| - |Worked(fleet, clients, pass)|
  {
    hide Step, Worked, Trusts;
    var before, after := NotAccepted(fleet, clients, ids), NotAccepted(Step(fleet, clients, pass), clients, ids);
    var done := Worked(fleet, clients, pass);
    forall a | a in done ensures a in before { WorkedPair(fleet, clients, pass, a.0, a.1); }
    forall a | a in before || a in after ensures a in after <==> a in before && a !in done {
      WorkedPair(fleet, clients, pass, a.0, a.1);
    }
    assert after == before - done;
    assert before == after + done && after !! done;
  }

  /** A round in which everything works; fingerprints of some copies may still be
      unavailable, the same ones throughout. */
  ghost predicate Smooth(env: Env, fingered: (Pod, Id) -> bool) {
    && (forall p :: env.reachable(p) && env.mapped(p))
    && (forall p, i :: env.fingered(p, i) == fingered(p, i))
    && (forall p, i :: env.accept(p, i) == Call(false, true) && env.readable(p, i)
                       && env.install(p, i) == Verified(Listed))
  }

  /** One reconcile pass, then one backfill pass. */
  function Round(fleet: Fleet, clients: seq<Pod>, r: Env, b: Env): (end: Fleet)
    requires Known(fleet, clients)
    ensures end.Keys == fleet.Keys
  {
    Step(Step(fleet, clients, Reconcile(r)), clients, Backfill(b))
  }

  lemma CopiedWhen(fleet: Fleet, clients: seq<Pod>, env: Env, p: Pod, id: Id, finger: string)
    requires Known(fleet, clients)
    requires p in clients && env.reachable(p) && Look(fleet, p, id).None?
    requires !Barred(fleet, clients, env, id) && Agreed(fleet, clients, env, id, finger)
    requires var vs := Views(fleet, clients, env); AcceptedOn(vs, id) == {} || env.readable(Source(vs, id), id)
    requires SafeId(id) && env.mapped(p) && Applied(env.install(p, id))
    ensures (p, id) in CopiesDone(fleet, clients, env)
  {
    hide Views, Quarantined, Unanimous, Barred;
    var vs := Views(fleet, clients, env);
    ViewsAre(fleet, clients, env);
    BarredIsQuarantined(fleet, clients, env, id);
    AgreedIsUnanimous(fleet, clients, env, id, finger);
    assert ViewOf(fleet, p, env) in vs;
    assert TabOn(ViewOf(fleet, p, env), id) == None;
    assert p in AbsentOn(vs, id);
    var q :| q in clients && env.reachable(q) && Trusts(fleet, q, id);
    assert ViewOf(fleet, q, env) in vs && id in ViewOf(fleet, q, env).seen;
    assert id in Ids(vs);
    assert Copied(vs, env, p, id);
  }

  /** The pods that trust id on a reachable client pod. */
  function Trusting(fleet: Fleet, clients: seq<Pod>, env: Env, id: Id): set<Pod> {
    set q | q in clients && env.reachable(q) && Trusts(fleet, q, id)
  }

  lemma TrustingAre(fleet: Fleet, clients: seq<Pod>, env: Env, id: Id)
    requires Known(fleet, clients)
    ensures AcceptedOn(Views(fleet, clients, env), id) == Trusting(fleet, clients, env, id)
    ensures forall q :: q in AcceptedOn(Views(fleet, clients, env), id) <==>
              q in clients && env.reachable(q) && Trusts(fleet, q, id)
  {
    var vs := Views(fleet, clients, env);
    ViewsAre(fleet, clients, env);
    forall q ensures q in AcceptedOn(vs, id) <==> q in Trusting(fleet, clients, env, id) {
      if q in Trusting(fleet, clients, env, id) {
        var v := ViewOf(fleet, q, env);
        assert v in vs && TabOn(v, id) == Some(Accepted) && v.pod == q;
      }
    }
  }

  /** The copy of id to pod p takes effect: the accepted copies agree on a fingerprint,
      the pod first in name order that trusts id lets its key be read, the id is safe as
      a file name, and the install reaches the pod, whatever is then said of it. */
  ghost predicate Arrives(fleet: Fleet, clients: seq<Pod>, env: Env, p: Pod, id: Id, source: Pod) {
    && (exists finger :: Agreed(fleet, clients, env, id, finger))
    && source in clients && env.reachable(source) && Trusts(fleet, source, id) && env.readable(source, id)
    && (forall q :: q in clients && env.reachable(q) && Trusts(fleet, q, id) ==> AtMost(source, q))
    && '/' !in id && '\0' !in id && (id == "" || id[0] != '.')
    && env.mapped(p)
    && match env.install(p, id)
       case ExecRaised(applied) => applied
       case Unverified(applied) => applied
       case Verified(_) => true
  }

  lemma CopiedExactly(fleet: Fleet, clients: seq<Pod>, env: Env, p: Pod, id: Id)
    requires Known(fleet, clients)
    ensures (p, id) in CopiesDone(fleet, clients, env) <==>
              && p in clients && env.reachable(p) && Look(fleet, p, id).None? && !Barred(fleet, clients, env, id)
              && exists source :: Arrives(fleet, clients, env, p, id, source)
    ensures forall source :: (p, id) in CopiesDone(fleet, clients, env)
                             && Arrives(fleet, clients, env, p, id, source) ==>
              CopiesDone(fleet, clients, env)[(p, id)] == Look(fleet, source, id).value.key
  {
    var vs := Views(fleet, clients, env);
    ViewsAre(fleet, clients, env);
    TrustingAre(fleet, clients, env, id);
    if (p, id) in CopiesDone(fleet, clients, env) {
      CopiedIs(fleet, clients, env, p, id);
      var s := Source(vs, id);
      assert Arrives(fleet, clients, env, p, id, s);
      forall source | Arrives(fleet, clients, env, p, id, source) ensures source == s {
        LeastUnique(source, s, AcceptedOn(vs, id));
      }
    } else if p in clients && env.reachable(p) && Look(fleet, p, id).None? && !Barred(fleet, clients, env, id) {
      if source :| Arrives(fleet, clients, env, p, id, source) {
        var finger :| Agreed(fleet, clients, env, id, finger);
        assert IsLeast(source, AcceptedOn(vs, id));
        assert source == Source(vs, id) by { LeastUnique(source, Source(vs, id), AcceptedOn(vs, id)); }
        CopiedWhen(fleet, clients, env, p, id, finger);
      }
    }
  }

  /** What one pass does to the copy of id on pod p, in terms of the true key
      directories and of what the calls come to: exactly when it accepts a pending key,
      exactly when it puts a copy where there was none and of which key, and that it
      changes nothing else. */
  lemma StepExactly(fleet: Fleet, clients: seq<Pod>, pass: Pass, p: Pod, id: Id)
    requires Known(fleet, clients)
    ensures var env, before, after := pass.env, Look(fleet, p, id), Look(Step(fleet, clients, pass), p, id);
            var open := p in clients && env.reachable(p) && !Barred(fleet, clients, env, id);
            match pass
            case Reconcile(_) =>
              after == if open && before.Some? && before.value.tab == Pending && env.fingered(p, id)
                          && Shown(fleet, clients, env, id, before.value.key.finger) && env.accept(p, id).applied
                       then Some(Copy(Accepted, before.value.key)) else before
            case Backfill(_) =>
              if open && before.None? && exists source :: Arrives(fleet, clients, env, p, id, source) then
                exists source :: Arrives(fleet, clients, env, p, id, source)
                                 && after == Some(Copy(Accepted, Look(fleet, source, id).value.key))
              else after == before
  {
    hide Step, CopiesDone, Plan, Views, Barred, Shown, Arrives;
    match pass
    case Reconcile(env) =>
      PlannedIs(fleet, clients, env, p, id);
      MoveStep(fleet, clients, env, p, id);
    case Backfill(env) =>
      CopiedExactly(fleet, clients, env, p, id);
      CopyStep(fleet, clients, env, p, id);
  }

  /** Rejections and denials are the same before and after a pass. */
  lemma BarredStays(fleet: Fleet, clients: seq<Pod>, pass: Pass, env: Env, later: Env, id: Id)
    requires Known(fleet, clients)
    requires forall p :: env.reachable(p) && later.reachable(p)
    ensures Barred(Step(fleet, clients, pass), clients, later, id) <==> Barred(fleet, clients, env, id)
  {
    var after := Step(fleet, clients, pass);
    forall q ensures Look(after, q, id).Some? && Look(after, q, id).value.tab in {Rejected, Denied}
                 <==> Look(fleet, q, id).Some? && Look(fleet, q, id).value.tab in {Rejected, Denied} {
      StepIsForward(fleet, clients, pass, id, q);
    }
  }

  /** A reconcile pass shows no fingerprint that was not shown before it. */
  lemma ShownBefore(fleet: Fleet, clients: seq<Pod>, env: Env, later: Env, fingered: (Pod, Id) -> bool, id: Id,
                    finger: string)
    requires Known(fleet, clients) && Smooth(env, fingered) && Smooth(later, fingered)
    requires Shown(Step(fleet, clients, Reconcile(env)), clients, later, id, finger)
    ensures Shown(fleet, clients, env, id, finger)
  {
    var mid := Step(fleet, clients, Reconcile(env));
    var q :| q in clients && later.reachable(q) && later.fingered(q, id)
             && Trusts(mid, q, id) && Look(mid, q, id).value.key.finger == finger;
    assert fingered(q, id) && env.reachable(q) && env.fingered(q, id);
    WorkedPair(fleet, clients, Reconcile(env), q, id);
    PlannedIs(fleet, clients, env, q, id);
  }

  /** After a smooth reconcile pass an agreed id is still agreed. */
  lemma AgreedAfterReconcile(fleet: Fleet, clients: seq<Pod>, r: Env, b: Env, fingered: (Pod, Id) -> bool,
                             id: Id, finger: string)
    requires Known(fleet, clients) && Smooth(r, fingered) && Smooth(b, fingered)
    requires Agreed(fleet, clients, r, id, finger)
    ensures Agreed(Step(fleet, clients, Reconcile(r)), clients, b, id, finger)
  {
    var mid := Step(fleet, clients, Reconcile(r));
    var q0 :| q0 in clients && r.reachable(q0) && Trusts(fleet, q0, id);
    assert b.reachable(q0);
    StepIsForward(fleet, clients, Reconcile(r), id, q0);
    assert Trusts(mid, q0, id);
    forall q | q in clients && b.reachable(q) && Trusts(mid, q, id)
      ensures b.fingered(q, id) && Look(mid, q, id).value.key.finger == finger
    {
      assert r.reachable(q) && r.fingered(q, id) == fingered(q, id) == b.fingered(q, id);
      WorkedPair(fleet, clients, Reconcile(r), q, id);
      PlannedIs(fleet, clients, r, q, id);
    }
  }

  /** A smooth reconcile pass accepts everything it plans. */
  lemma AcceptStep(fleet: Fleet, clients: seq<Pod>, env: Env, fingered: (Pod, Id) -> bool, p: Pod, id: Id)
    requires Known(fleet, clients) && Smooth(env, fingered)
    ensures (p, id) in Plan(Views(fleet, clients, env)) ==> Trusts(Step(fleet, clients, Reconcile(env)), p, id)
  {
    WorkedPair(fleet, clients, Reconcile(env), p, id);
    assert env.accept(p, id) == Call(false, true);
  }

  /** A smooth backfill pass reaches every absent pod of an agreed, unbarred id. */
  lemma AbsentIsCopied(fleet: Fleet, clients: seq<Pod>, env: Env, fingered: (Pod, Id) -> bool, p: Pod, id: Id,
                       finger: string)
    requires Known(fleet, clients) && Smooth(env, fingered)
    requires p in clients && Look(fleet, p, id).None? && SafeId(id)
    requires !Barred(fleet, clients, env, id) && Agreed(fleet, clients, env, id, finger)
    ensures var end := Step(fleet, clients, Backfill(env));
            Trusts(end, p, id) && Look(end, p, id).value.key.finger == finger
  {
    hide Step, CopiesDone, Barred;
    assert env.reachable(p) && env.mapped(p) && env.install(p, id) == Verified(Listed);
    assert forall q :: env.accept(q, id) == Call(false, true) && env.readable(q, id);
    CopiedWhen(fleet, clients, env, p, id, finger);
    CopiedIs(fleet, clients, env, p, id);
    CopyStep(fleet, clients, env, p, id);
    var q :| q in clients && env.reachable(q) && Trusts(fleet, q, id);
  }

  /** Convergence: when every pod answers and every call works, one reconcile and
      one backfill leave an unquarantined id, whose accepted copies all show one
      known fingerprint, accepted under it on every pod except where it is pending
      under a different or unavailable one. */
  lemma RoundConverges(fleet: Fleet, clients: seq<Pod>, r: Env, b: Env, fingered: (Pod, Id) -> bool, id: Id,
                       finger: string, p: Pod)
    requires Known(fleet, clients) && Smooth(r, fingered) && Smooth(b, fingered)
    requires SafeId(id) && !Barred(fleet, clients, r, id) && Agreed(fleet, clients, r, id, finger)
    requires p in clients
    ensures var end := Round(fleet, clients, r, b);
            || (Trusts(end, p, id) && Look(end, p, id).value.key.finger == finger)
            || (&& Look(end, p, id) == Look(fleet, p, id)
                && Look(end, p, id).Some? && Look(end, p, id).value.tab == Pending
                && (!fingered(p, id) || Look(end, p, id).value.key.finger != finger))
  {
    hide Step, Plan, Views, Barred, Agreed, Shown;
    var mid := Step(fleet, clients, Reconcile(r));
    AgreedAfterReconcile(fleet, clients, r, b, fingered, id, finger);
    BarredStays(fleet, clients, Reconcile(r), r, b, id);
    StepIsForward(fleet, clients, Reconcile(r), id, p);
    StepIsForward(mid, clients, Backfill(b), id, p);
    if Look(mid, p, id).None? {
      AbsentIsCopied(mid, clients, b, fingered, p, id, finger);
    } else if Look(mid, p, id).value.tab == Pending {
      AgreedIsShown(fleet, clients, r, id, finger);
      PlannedIs(fleet, clients, r, p, id);
      AcceptStep(fleet, clients, r, fingered, p, id);
      CopyStep(mid, clients, b, p, id);
      if (p, id) in CopiesDone(mid, clients, b) { CopiedIs(mid, clients, b, p, id); }
    } else {
      NotBarredHere(mid, clients, b, p, id);
      AgreedHere(mid, clients, b, p, id, finger);
    }
  }

  lemma AgreedIsShown(fleet: Fleet, clients: seq<Pod>, env: Env, id: Id, finger: string)
    requires Agreed(fleet, clients, env, id, finger)
    ensures Shown(fleet, clients, env, id, finger)
  {
    var q :| q in clients && env.reachable(q) && Trusts(fleet, q, id);
  }

  lemma NotBarredHere(fleet: Fleet, clients: seq<Pod>, env: Env, p: Pod, id: Id)
    requires !Barred(fleet, clients, env, id) && p in clients && env.reachable(p)
    ensures Look(fleet, p, id).Some? ==> Look(fleet, p, id).value.tab !in {Rejected, Denied}
  {
  }

  lemma AgreedHere(fleet: Fleet, clients: seq<Pod>, env: Env, p: Pod, id: Id, finger: string)
    requires Agreed(fleet, clients, env, id, finger) && p in clients && env.reachable(p)
    ensures Trusts(fleet, p, id) ==> Look(fleet, p, id).value.key.finger == finger
  {
  }

  /** After one smooth round a second one has nothing to accept ... */
  lemma NothingLeftToAccept(fleet: Fleet, clients: seq<Pod>, r: Env, b: Env, again: Env,
                            fingered: (Pod, Id) -> bool, p: Pod, id: Id)
    requires Known(fleet, clients) && Smooth(r, fingered) && Smooth(b, fingered) && Smooth(again, fingered)
    ensures (p, id) !in Plan(Views(Round(fleet, clients, r, b), clients, again))
  {
    hide Step, Plan, Views, Barred, Shown;
    var mid := Step(fleet, clients, Reconcile(r));
    var end := Step(mid, clients, Backfill(b));
    if (p, id) in Plan(Views(end, clients, again)) {
      PlannedIs(end, clients, again, p, id);
      var finger := Look(end, p, id).value.key.finger;
      StepIsForward(fleet, clients, Reconcile(r), id, p);
      StepIsForward(mid, clients, Backfill(b), id, p);
      BarredStays(mid, clients, Backfill(b), b, again, id);
      BarredStays(fleet, clients, Reconcile(r), r, b, id);
      ShownBeforeCopies(mid, clients, b, again, fingered, id, finger);
      ShownBefore(fleet, clients, r, b, fingered, id, finger);
      PlannedIs(fleet, clients, r, p, id);
      AcceptStep(fleet, clients, r, fingered, p, id);
      assert false;
    }
  }

  lemma ShownBeforeCopies(mid: Fleet, clients: seq<Pod>, b: Env, again: Env, fingered: (Pod, Id) -> bool,
                          id: Id, finger: string)
    requires Known(mid, clients) && Smooth(b, fingered) && Smooth(again, fingered)
    requires Shown(Step(mid, clients, Backfill(b)), clients, again, id, finger)
    ensures Shown(mid, clients, b, id, finger)
  {
    var end := Step(mid, clients, Backfill(b));
    var q :| q in clients && again.reachable(q) && again.fingered(q, id)
             && Trusts(end, q, id) && Look(end, q, id).value.key.finger == finger;
    var done := CopiesDone(mid, clients, b);
    CopyLooks(mid, done, q, id);
    if (q, id) in done {
      CopiedIs(mid, clients, b, q, id);
      var q' :| q' in clients && b.reachable(q') && Trusts(mid, q', id);
    } else {
      assert b.reachable(q) && b.fingered(q, id) == fingered(q, id) == again.fingered(q, id);
    }
  }

  /** ... and nothing to copy. */
  lemma NothingLeftToCopy(fleet: Fleet, clients: seq<Pod>, r: Env, b: Env, again: Env,
                          fingered: (Pod, Id) -> bool, id: Id)
    requires Known(fleet, clients) && Smooth(r, fingered) && Smooth(b, fingered) && Smooth(again, fingered)
    requires SafeId(id)
    ensures !CopyPlanned(Views(Round(fleet, clients, r, b), clients, again), id)
  {
    hide Step, Views, Barred, Agreed;
    var mid := Step(fleet, clients, Reconcile(r));
    var end := Step(mid, clients, Backfill(b));
    if CopyPlanned(Views(end, clients, again), id) {
      var p, finger := PlannedCopyIs(end, clients, again, id);
      StepIsForward(mid, clients, Backfill(b), id, p);
      BarredStays(mid, clients, Backfill(b), b, again, id);
      AgreedBeforeCopies(mid, clients, b, again, fingered, id, finger);
      AbsentIsCopied(mid, clients, b, fingered, p, id, finger);
      assert false;
    }
  }

  /** What a planned copy means in terms of the true key directories. */
  lemma PlannedCopyIs(fleet: Fleet, clients: seq<Pod>, env: Env, id: Id) returns (p: Pod, finger: string)
    requires Known(fleet, clients)
    requires CopyPlanned(Views(fleet, clients, env), id)
    ensures p in clients && env.reachable(p) && Look(fleet, p, id).None?
    ensures !Barred(fleet, clients, env, id) && Agreed(fleet, clients, env, id, finger)
  {
    var vs := Views(fleet, clients, env);
    ViewsAre(fleet, clients, env);
    BarredIsQuarantined(fleet, clients, env, id);
    UnanimousIsAgreed(fleet, clients, env, id);
    finger := TheFinger(vs, id);
    p :| p in AbsentOn(vs, id);
  }

  lemma AgreedBeforeCopies(mid: Fleet, clients: seq<Pod>, b: Env, again: Env, fingered: (Pod, Id) -> bool,
                           id: Id, finger: string)
    requires Known(mid, clients) && Smooth(b, fingered) && Smooth(again, fingered)
    requires Agreed(Step(mid, clients, Backfill(b)), clients, again, id, finger)
    ensures Agreed(mid, clients, b, id, finger)
  {
    var end, done := Step(mid, clients, Backfill(b)), CopiesDone(mid, clients, b);
    var q0 :| q0 in clients && again.reachable(q0) && Trusts(end, q0, id);
    CopyLooks(mid, done, q0, id);
    if (q0, id) in done {
      CopiedIs(mid, clients, b, q0, id);
    } else {
      assert b.reachable(q0) && Trusts(mid, q0, id);
    }
    forall q | q in clients && b.reachable(q) && Trusts(mid, q, id)
      ensures b.fingered(q, id) && Look(mid, q, id).value.key.finger == finger
    {
      StepIsForward(mid, clients, Backfill(b), id, q);
      assert again.reachable(q) && again.fingered(q, id) == fingered(q, id) == b.fingered(q, id);
    }
  }

  /** A second smooth round changes nothing, when every id is one the copy accepts. */
  lemma SecondRoundIsIdle(fleet: Fleet, clients: seq<Pod>, r: Env, b: Env, r2: Env, b2: Env,
                          fingered: (Pod, Id) -> bool)
    requires Known(fleet, clients) && Smooth(r, fingered) && Smooth(b, fingered)
    requires Smooth(r2, fingered) && Smooth(b2, fingered)
    requires forall p, i :: Look(fleet, p, i).Some? ==> SafeId(i)
    ensures var end := Round(fleet, clients, r, b);
            && Plan(Views(end, clients, r2)) == []
            && CopiesDone(end, clients, b2) == map[]
            && Round(end, clients, r2, b2) == end
  {
    var end := Round(fleet, clients, r, b);
    SecondReconcileIdle(fleet, clients, r, b, r2, fingered);
    SecondBackfillIdle(fleet, clients, r, b, b2, fingered);
    IdleAccepts(end, clients, r2);
    IdleCopies(end, clients, b2);
  }

  lemma SecondReconcileIdle(fleet: Fleet, clients: seq<Pod>, r: Env, b: Env, again: Env, fingered: (Pod, Id) -> bool)
    requires Known(fleet, clients) && Smooth(r, fingered) && Smooth(b, fingered) && Smooth(again, fingered)
    ensures Plan(Views(Round(fleet, clients, r, b), clients, again)) == []
  {
    hide Round, Plan, Views;
    var plan := Plan(Views(Round(fleet, clients, r, b), clients, again));
    if plan != [] {
      assert plan[0] in plan;
      NothingLeftToAccept(fleet, clients, r, b, again, fingered, plan[0].0, plan[0].1);
      assert false;
    }
  }

  lemma SecondBackfillIdle(fleet: Fleet, clients: seq<Pod>, r: Env, b: Env, again: Env, fingered: (Pod, Id) -> bool)
    requires Known(fleet, clients) && Smooth(r, fingered) && Smooth(b, fingered) && Smooth(again, fingered)
    requires forall p, i :: Look(fleet, p, i).Some? ==> SafeId(i)
    ensures CopiesDone(Round(fleet, clients, r, b), clients, again) == map[]
  {
    hide Round, Views, CopyPlanned;
    var end := Round(fleet, clients, r, b);
    var done := CopiesDone(end, clients, again);
    if done != map[] {
      var k :| k in done;
      CopiedIs(end, clients, again, k.0, k.1);
      var q :| q in clients && again.reachable(q) && Trusts(end, q, k.1);
      IdIsOld(fleet, clients, r, b, q, k.1);
      NothingLeftToCopy(fleet, clients, r, b, again, fingered, k.1);
      assert false;
    }
  }

  lemma IdleAccepts(fleet: Fleet, clients: seq<Pod>, env: Env)
    requires Known(fleet, clients) && Plan(Views(fleet, clients, env)) == []
    ensures Step(fleet, clients, Reconcile(env)) == fleet
  {
    hide Plan, Views;
    var after := AfterAccepts(fleet, {});
    assert AcceptsDone([], env) == {};
    forall p | p in fleet ensures after[p] == fleet[p] {}
    assert after == fleet;
  }

  lemma IdleCopies(fleet: Fleet, clients: seq<Pod>, env: Env)
    requires Known(fleet, clients) && CopiesDone(fleet, clients, env) == map[]
    ensures Step(fleet, clients, Backfill(env)) == fleet
  {
    hide CopiesDone;
    var after := AfterCopies(fleet, map[]);
    forall p | p in fleet ensures after[p] == fleet[p] { assert CopiesTo(map[], p) == map[]; }
    assert after == fleet;
  }

  /** No pass brings in an id that no pod listed. */
  lemma IdIsOld(fleet: Fleet, clients: seq<Pod>, r: Env, b: Env, q: Pod, id: Id)
    requires Known(fleet, clients)
    requires Look(Round(fleet, clients, r, b), q, id).Some?
    ensures exists p :: Look(fleet, p, id).Some?
  {
    hide Step, Plan, Views, CopiesDone;
    var mid := Step(fleet, clients, Reconcile(r));
    CopyStep(mid, clients, b, q, id);
    var p := q;
    if (q, id) in CopiesDone(mid, clients, b) {
      CopiedIs(mid, clients, b, q, id);
      p :| p in clients && b.reachable(p) && Trusts(mid, p, id);
    }
    StepIsForward(fleet, clients, Reconcile(r), id, p);
    if Look(fleet, p, id).None? {
      WorkedPair(fleet, clients, Reconcile(r), p, id);
      PlannedIs(fleet, clients, r, p, id);
      assert false;
    }
  }
}
