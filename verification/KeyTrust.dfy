/** Key trust across master pods: what one reconcile pass and one backfill pass
    decide and do, and what every run of such passes keeps.

    Each pod holds its own copy of a minion key in one of four states. A pass reads
    the reachable pods once, decides from that reading alone, then acts; any call
    may fail, with or without having taken effect. */
module KeyTrust {
  import opened Options
  import opened Text

  type Pod = string
  type Id = string

  datatype Tab = Pending | Accepted | Rejected | Denied

  /** Key material. The fingerprint is a function of the bytes, so it travels with
      them. */
  datatype Key = Key(pem: string, finger: string)

  datatype Copy = Copy(tab: Tab, key: Key)

  /** The true key directories of all master pods. */
  type Fleet = map<Pod, map<Id, Copy>>

  function Look(fleet: Fleet, pod: Pod, id: Id): Option<Copy> {
    if pod in fleet && id in fleet[pod] then Some(fleet[pod][id]) else None
  }

  predicate Trusts(fleet: Fleet, pod: Pod, id: Id) {
    Look(fleet, pod, id).Some? && Look(fleet, pod, id).value.tab == Accepted
  }

  /** The fleet-wide trusted (id, fingerprint) pairs. */
  function TrustedPairs(fleet: Fleet): set<(Id, string)> {
    set p, i | p in fleet && i in fleet[p] && fleet[p][i].tab == Accepted :: (i, fleet[p][i].key.finger)
  }

  // ------------------------------------------------------------------ the reading

  /** What one reachable pod reports about one id: its state, and the fingerprint
      if key.finger yielded one. */
  datatype Seen = Seen(tab: Tab, finger: Option<string>)

  /** (listed, fingers) of one reachable pod; each id sits in one state. */
  datatype View = View(pod: Pod, seen: map<Id, Seen>)

  /** How wheel key.accept ends: an error may still have moved the key. */
  datatype Call = Call(raised: bool, applied: bool)

  /** How the copy of one key to one pod ends. The script installs atomically, so
      the file is the whole key or untouched; a matching digest proves it is there. */
  datatype Install =
    | ExecRaised(applied: bool)
    | Unverified(applied: bool)
    | Verified(reread: Reread)

  /** The confirming key.list_all of the target after a verified copy. */
  datatype Reread = Unanswered | Listed | NotListed

  /** Everything the environment decides during one pass. */
  datatype Env = Env(
    reachable: Pod -> bool,              // key.list_all answers
    fingered: (Pod, Id) -> bool,         // key.finger yields this copy's fingerprint
    accept: (Pod, Id) -> Call,           // wheel key.accept
    readable: (Pod, Id) -> bool,         // key.print returns the accepted PEM
    mapped: Pod -> bool,                 // the client name maps to a Kubernetes pod
    install: (Pod, Id) -> Install)       // exec, digest and re-read

  function Applied(r: Install): bool {
    r.Verified? || r.applied
  }

  function SeenOf(c: Copy, fingered: bool): Seen {
    Seen(c.tab, if fingered then Some(c.key.finger) else None)
  }

  /** The reading of one pod. */
  function ViewOf(fleet: Fleet, pod: Pod, env: Env): View
    requires pod in fleet
  {
    View(pod, map i | i in fleet[pod] :: SeenOf(fleet[pod][i], env.fingered(pod, i)))
  }

  /** _fleet_key_states: the views of the reachable clients, in client order. */
  function Views(fleet: Fleet, clients: seq<Pod>, env: Env): (vs: seq<View>)
    requires forall p :: p in clients ==> p in fleet
  {
    if clients == [] then []
    else
      var front, last := clients[..|clients| - 1], clients[|clients| - 1];
      Views(fleet, front, env) + (if env.reachable(last) then [ViewOf(fleet, last, env)] else [])
  }

  lemma {:induction false} ViewsAre(fleet: Fleet, clients: seq<Pod>, env: Env)
    requires forall p :: p in clients ==> p in fleet
    ensures forall v :: v in Views(fleet, clients, env) <==>
              v.pod in clients && env.reachable(v.pod) && v == ViewOf(fleet, v.pod, env)
  {
    if clients != [] { ViewsAre(fleet, clients[..|clients| - 1], env); }
  }

  function TabOn(v: View, id: Id): Option<Tab> {
    if id in v.seen then Some(v.seen[id].tab) else None
  }

  predicate Quarantines(v: View, id: Id) {
    TabOn(v, id) == Some(Rejected) || TabOn(v, id) == Some(Denied)
  }

  predicate Quarantined(vs: seq<View>, id: Id) {
    exists v :: v in vs && Quarantines(v, id)
  }

  /** Every id any reachable pod lists. */
  function Ids(vs: seq<View>): set<Id> {
    set v, i | v in vs && i in v.seen :: i
  }

  /** The attributed fingerprints of the accepted copies of id. */
  function TrustedFingers(vs: seq<View>, id: Id): set<string> {
    set v | v in vs && TabOn(v, id) == Some(Accepted) && v.seen[id].finger.Some? :: v.seen[id].finger.value
  }

  // ----------------------------------------------------------- reconcile decisions

  datatype Reason =
    | Explicit(tab: Tab, pod: Pod)
    | TrustedNowhere
    | Mismatch(pod: Pod)
    | Disagree
    | Unsafe
    | Unreadable(pod: Pod)
    | Unmapped(pod: Pod)

  /** v files id as pending with a fingerprint some accepted copy also carries. */
  predicate Completes(vs: seq<View>, v: View, id: Id) {
    && TabOn(v, id) == Some(Pending)
    && v.seen[id].finger.Some?
    && v.seen[id].finger.value in TrustedFingers(vs, id)
  }

  function PendingOn(vs: seq<View>, id: Id): seq<View> {
    if vs == [] then []
    else PendingOn(vs[..|vs| - 1], id)
         + if TabOn(vs[|vs| - 1], id) == Some(Pending) then [vs[|vs| - 1]] else []
  }

  /** First reachable pod, in client order, that rejects or denies id. */
  function FirstDecider(vs: seq<View>, id: Id): (v: View)
    requires Quarantined(vs, id)
    ensures v in vs && Quarantines(v, id)
    ensures exists k :: 0 <= k < |vs| && vs[k] == v && forall j :: 0 <= j < k ==> !Quarantines(vs[j], id)
  {
    if Quarantines(vs[0], id) then vs[0]
    else
      assert vs == [vs[0]] + vs[1..];
      var v := FirstDecider(vs[1..], id);
      assert exists k :: 0 <= k < |vs| && vs[k] == v && forall j :: 0 <= j < k ==> !Quarantines(vs[j], id) by {
        var k :| 0 <= k < |vs[1..]| && vs[1..][k] == v && forall j :: 0 <= j < k ==> !Quarantines(vs[1..][j], id);
        forall j | 0 <= j < k + 1 ensures !Quarantines(vs[j], id) { assert j > 0 ==> vs[j] == vs[1..][j - 1]; }
        assert vs[k + 1] == v;
      }
      v
  }

  /** The pods among pending, in order, on which the key is to be accepted. */
  function Matching(vs: seq<View>, pending: seq<View>, id: Id): seq<(Pod, Id)> {
    if pending == [] then []
    else Matching(vs, pending[..|pending| - 1], id)
         + if Completes(vs, pending[|pending| - 1], id) then [(pending[|pending| - 1].pod, id)] else []
  }

  function Mismatching(vs: seq<View>, pending: seq<View>, id: Id): seq<(Id, Reason)> {
    if pending == [] then []
    else Mismatching(vs, pending[..|pending| - 1], id)
         + if Completes(vs, pending[|pending| - 1], id) then [] else [(id, Mismatch(pending[|pending| - 1].pod))]
  }

  /** The accepts one id gets, and its skip entries. */
  function AcceptsFor(vs: seq<View>, id: Id): seq<(Pod, Id)> {
    if Quarantined(vs, id) || PendingOn(vs, id) == [] || TrustedFingers(vs, id) == {} then []
    else Matching(vs, PendingOn(vs, id), id)
  }

  function SkipsFor(vs: seq<View>, id: Id): seq<(Id, Reason)> {
    if Quarantined(vs, id) then
      var v := FirstDecider(vs, id);
      [(id, Explicit(v.seen[id].tab, v.pod))]
    else if PendingOn(vs, id) == [] then []
    else if TrustedFingers(vs, id) == {} then [(id, TrustedNowhere)]
    else Mismatching(vs, PendingOn(vs, id), id)
  }

  function Accepts(vs: seq<View>, ids: seq<Id>): seq<(Pod, Id)> {
    if ids == [] then [] else Accepts(vs, ids[..|ids| - 1]) + AcceptsFor(vs, ids[|ids| - 1])
  }

  function Skips(vs: seq<View>, ids: seq<Id>): seq<(Id, Reason)> {
    if ids == [] then [] else Skips(vs, ids[..|ids| - 1]) + SkipsFor(vs, ids[|ids| - 1])
  }

  /** The declarative meaning of the plan: id is accepted on a pod exactly when the
      pod is reachable, files it as pending under a fingerprint an accepted copy on
      a reachable pod also shows, and no reachable pod rejects or denies it. */
  predicate Planned(vs: seq<View>, pod: Pod, id: Id) {
    !Quarantined(vs, id) && exists v :: v in vs && v.pod == pod && Completes(vs, v, id)
  }

  lemma {:induction false} PendingOnAre(vs: seq<View>, id: Id)
    ensures forall v :: v in PendingOn(vs, id) <==> v in vs && TabOn(v, id) == Some(Pending)
  {
    if vs != [] { PendingOnAre(vs[..|vs| - 1], id); }
  }

  lemma {:induction false} MatchingAre(vs: seq<View>, pending: seq<View>, id: Id)
    ensures forall p, i :: (p, i) in Matching(vs, pending, id) <==>
              i == id && exists v :: v in pending && v.pod == p && Completes(vs, v, id)
  {
    if pending != [] {
      var front, last := pending[..|pending| - 1], pending[|pending| - 1];
      MatchingAre(vs, front, id);
      assert forall v :: v in pending <==> v in front || v == last;
    }
  }

  lemma AcceptsForAre(vs: seq<View>, id: Id)
    ensures forall p, i :: (p, i) in AcceptsFor(vs, id) <==> i == id && Planned(vs, p, id)
  {
    PendingOnAre(vs, id);
    MatchingAre(vs, PendingOn(vs, id), id);
  }

  lemma {:induction false} AcceptsAre(vs: seq<View>, ids: seq<Id>)
    ensures forall p, i :: (p, i) in Accepts(vs, ids) <==> i in ids && Planned(vs, p, i)
  {
    if ids != [] {
      AcceptsAre(vs, ids[..|ids| - 1]);
      AcceptsForAre(vs, ids[|ids| - 1]);
    }
  }

  /** The whole reconcile plan: every planned pair of the fleet and nothing else. */
  function Plan(vs: seq<View>): seq<(Pod, Id)> {
    Accepts(vs, Sorted(Ids(vs)))
  }

  lemma PlanIs(vs: seq<View>)
    ensures forall p, i :: (p, i) in Plan(vs) <==> Planned(vs, p, i)
  {
    AcceptsAre(vs, Sorted(Ids(vs)));
  }

  /** The declarative meaning of a skip entry. */
  ghost predicate SkipMeans(vs: seq<View>, id: Id, r: Reason) {
    match r
    case Explicit(tab, pod) =>
      Quarantined(vs, id) && FirstDecider(vs, id).pod == pod && TabOn(FirstDecider(vs, id), id) == Some(tab)
    case TrustedNowhere =>
      !Quarantined(vs, id) && TrustedFingers(vs, id) == {} && exists v :: v in vs && TabOn(v, id) == Some(Pending)
    case Mismatch(pod) =>
      && !Quarantined(vs, id) && TrustedFingers(vs, id) != {}
      && exists v :: v in vs && v.pod == pod && TabOn(v, id) == Some(Pending) && !Completes(vs, v, id)
    case _ => false
  }

  lemma {:induction false} MismatchingAre(vs: seq<View>, pending: seq<View>, id: Id)
    ensures forall i, r :: (i, r) in Mismatching(vs, pending, id) <==>
              i == id && r.Mismatch? && exists v :: v in pending && v.pod == r.pod && !Completes(vs, v, id)
  {
    hide Completes;
    if pending != [] {
      var front, last := pending[..|pending| - 1], pending[|pending| - 1];
      MismatchingAre(vs, front, id);
      assert forall v :: v in pending <==> v in front || v == last;
    }
  }

  lemma SkipsForAre(vs: seq<View>, id: Id)
    ensures forall i, r :: (i, r) in SkipsFor(vs, id) <==> i == id && SkipMeans(vs, id, r)
  {
    hide Completes, TrustedFingers, Quarantined, PendingOn;
    PendingOnAre(vs, id);
    MismatchingAre(vs, PendingOn(vs, id), id);
    var pending := PendingOn(vs, id);
    if pending != [] {
      assert pending[0] in pending;
      assert pending[0] in vs && TabOn(pending[0], id) == Some(Pending);
    } else {
      assert forall v :: v in vs ==> TabOn(v, id) != Some(Pending);
    }
    if !Quarantined(vs, id) && pending != [] && TrustedFingers(vs, id) != {} {
      forall i, r ensures (i, r) in SkipsFor(vs, id) <==> i == id && SkipMeans(vs, id, r) {
        assert forall v :: v in pending <==> v in vs && TabOn(v, id) == Some(Pending);
      }
    }
  }

  lemma {:induction false} SkipsAre(vs: seq<View>, ids: seq<Id>)
    ensures forall i, r :: (i, r) in Skips(vs, ids) <==> i in ids && SkipMeans(vs, i, r)
  {
    hide SkipMeans, SkipsFor;
    if ids != [] {
      SkipsAre(vs, ids[..|ids| - 1]);
      SkipsForAre(vs, ids[|ids| - 1]);
    }
  }

  /** A skip that speaks of this pod's copy: of the id as a whole, or of the pod. */
  predicate Speaks(r: Reason, pod: Pod) {
    r.Explicit? || r.TrustedNowhere? || r == Mismatch(pod)
  }

  /** Nothing pending goes unreported: a key some reachable pod files as pending is
      either planned there or skipped for a reason that speaks of it, and not both. */
  lemma PendingIsReported(vs: seq<View>, v: View, id: Id)
    requires v in vs && TabOn(v, id) == Some(Pending)
    requires forall a, b :: a in vs && b in vs && a.pod == b.pod ==> a == b
    ensures (v.pod, id) in Plan(vs) <==>
              !exists r :: (id, r) in Skips(vs, Sorted(Ids(vs))) && Speaks(r, v.pod)
  {
    hide Skips, Plan, Completes, TrustedFingers, FirstDecider;
    PlanIs(vs);
    SkipsAre(vs, Sorted(Ids(vs)));
    assert id in Ids(vs);
    if Quarantined(vs, id) {
      var d := FirstDecider(vs, id);
      assert SkipMeans(vs, id, Explicit(d.seen[id].tab, d.pod));
    } else if TrustedFingers(vs, id) == {} {
      assert SkipMeans(vs, id, TrustedNowhere);
      assert !Completes(vs, v, id) by { NothingCompletes(vs, v, id); }
    } else if !Completes(vs, v, id) {
      assert SkipMeans(vs, id, Mismatch(v.pod));
    }
  }

  lemma NothingCompletes(vs: seq<View>, v: View, id: Id)
    requires TrustedFingers(vs, id) == {}
    ensures !Completes(vs, v, id)
  {
  }

  // ------------------------------------------------------------- backfill decisions

  /** accepted_on, absent_on: in name order. */
  function AcceptedOn(vs: seq<View>, id: Id): set<Pod> {
    set v | v in vs && TabOn(v, id) == Some(Accepted) :: v.pod
  }

  function AbsentOn(vs: seq<View>, id: Id): set<Pod> {
    set v | v in vs && TabOn(v, id) == None :: v.pod
  }

  /** What fps holds: the fingerprint, or None, of each accepted copy. */
  function AcceptedFingers(vs: seq<View>, id: Id): set<Option<string>> {
    set v | v in vs && TabOn(v, id) == Some(Accepted) :: v.seen[id].finger
  }

  predicate Unanimous(vs: seq<View>, id: Id) {
    |AcceptedFingers(vs, id)| == 1 && None !in AcceptedFingers(vs, id)
  }

  lemma OneElement<T>(s: set<T>)
    requires |s| == 1
    ensures exists x :: s == {x}
  {
    var x :| x in s;
    assert |s - {x}| == 0;
    assert s == {x};
  }

  /** id is to be copied: somewhere accepted, somewhere absent, nowhere rejected or
      denied, and every accepted copy shows one same fingerprint. */
  predicate CopyPlanned(vs: seq<View>, id: Id) {
    && !Quarantined(vs, id)
    && AcceptedOn(vs, id) != {}
    && AbsentOn(vs, id) != {}
    && Unanimous(vs, id)
  }

  predicate CopySkipped(vs: seq<View>, id: Id) {
    && !Quarantined(vs, id)
    && AcceptedOn(vs, id) != {}
    && AbsentOn(vs, id) != {}
    && !Unanimous(vs, id)
  }

  /** One planned copy: (mid, fingerprint, accepted_on, absent_on). */
  datatype Candidate = Candidate(id: Id, finger: string, acceptedOn: seq<Pod>, absentOn: seq<Pod>)

  function CandidateOf(vs: seq<View>, id: Id): Candidate
    requires CopyPlanned(vs, id)
  {
    Candidate(id, TheFinger(vs, id), Sorted(AcceptedOn(vs, id)), Sorted(AbsentOn(vs, id)))
  }

  function TheFinger(vs: seq<View>, id: Id): (f: string)
    requires Unanimous(vs, id)
    ensures AcceptedFingers(vs, id) == {Some(f)}
  {
    OneElement(AcceptedFingers(vs, id));
    var o :| o in AcceptedFingers(vs, id);
    o.value
  }

  function Candidates(vs: seq<View>, ids: seq<Id>): seq<Candidate> {
    if ids == [] then []
    else
      var id := ids[|ids| - 1];
      Candidates(vs, ids[..|ids| - 1]) + if CopyPlanned(vs, id) then [CandidateOf(vs, id)] else []
  }

  function CopySkips(vs: seq<View>, ids: seq<Id>): seq<(Id, Reason)> {
    if ids == [] then []
    else
      var id := ids[|ids| - 1];
      CopySkips(vs, ids[..|ids| - 1]) + if CopySkipped(vs, id) then [(id, Disagree)] else []
  }

  lemma {:induction false} CandidatesAre(vs: seq<View>, ids: seq<Id>)
    ensures forall c :: c in Candidates(vs, ids) <==>
              c.id in ids && CopyPlanned(vs, c.id) && c == CandidateOf(vs, c.id)
  {
    if ids != [] { CandidatesAre(vs, ids[..|ids| - 1]); }
  }

  /** File names the copy step refuses. */
  predicate SafeId(id: Id) {
    !('/' in id || '\0' in id || (|id| > 0 && id[0] == '.'))
  }

  // --------------------------------------------------------------------- the effect

  /** The fleet after the accepts in done took effect; accept moves pending keys. */
  function AfterAccepts(fleet: Fleet, done: set<(Pod, Id)>): Fleet {
    map p | p in fleet :: map i | i in fleet[p] ::
      if (p, i) in done && fleet[p][i].tab == Pending then Copy(Accepted, fleet[p][i].key) else fleet[p][i]
  }

  /** The fleet after the copies in done took effect. */
  function AfterCopies(fleet: Fleet, done: map<(Pod, Id), Key>): Fleet {
    map p | p in fleet :: fleet[p] + CopiesTo(done, p)
  }

  function CopiesTo(done: map<(Pod, Id), Key>, pod: Pod): map<Id, Copy> {
    map k | k in done && k.0 == pod :: k.1 := Copy(Accepted, done[k])
  }

  function AcceptsDone(plan: seq<(Pod, Id)>, env: Env): set<(Pod, Id)> {
    set a | a in plan && env.accept(a.0, a.1).applied
  }

  function ReconcileStep(fleet: Fleet, clients: seq<Pod>, env: Env): Fleet
    requires forall p :: p in clients ==> p in fleet
  {
    AfterAccepts(fleet, AcceptsDone(Plan(Views(fleet, clients, env)), env))
  }

  /** The source of a copy: the first accepted pod in name order. */
  function Source(vs: seq<View>, id: Id): (p: Pod)
    requires AcceptedOn(vs, id) != {}
    ensures IsLeast(p, AcceptedOn(vs, id))
  {
    Sorted(AcceptedOn(vs, id))[0]
  }

  /** The copy of id to pod is carried out and takes effect. */
  predicate Copied(vs: seq<View>, env: Env, pod: Pod, id: Id) {
    && CopyPlanned(vs, id) && pod in AbsentOn(vs, id)
    && SafeId(id) && env.readable(Source(vs, id), id)
    && env.mapped(pod) && Applied(env.install(pod, id))
  }

  function CopiesDone(fleet: Fleet, clients: seq<Pod>, env: Env): (done: map<(Pod, Id), Key>)
    requires forall p :: p in clients ==> p in fleet
  {
    var vs := Views(fleet, clients, env);
    ViewsAre(fleet, clients, env);
    map p, i | p in clients && i in Ids(vs) && Copied(vs, env, p, i) :: (p, i) := fleet[Source(vs, i)][i].key
  }

  function BackfillStep(fleet: Fleet, clients: seq<Pod>, env: Env): Fleet
    requires forall p :: p in clients ==> p in fleet
  {
    AfterCopies(fleet, CopiesDone(fleet, clients, env))
  }
}
