/** Conformity verdicts: what a landed state job says about each minion, and how
    verdicts arriving out of order settle, with the capped trail beside them. */
module Verdicts {
  import opened Options
  import opened Sequences
  import opened Text
  import opened Trails

  type Jid = string
  type Id = string

  datatype Status = Good | Drifted | NotReached

  // ------------------------------------------------------------------ one job's verdict

  /** result of one state: false, null, or anything else. */
  datatype Outcome = FalseResult | NullResult | OtherResult

  datatype StateEntry = StateEntry(sls: Option<string>, outcome: Outcome, changes: bool)

  /** The stored return document: not a mapping, or state id to its entry (None for a
      value that is not a mapping). */
  datatype Payload = NoMapping | States(entries: map<string, Option<StateEntry>>)

  datatype Ret = Ret(success: bool, payload: Payload)

  predicate Matches(o: Option<StateEntry>, watched: set<string>) {
    o.Some? && o.value.sls.Some? && o.value.sls.value in watched
  }

  predicate Bad(e: StateEntry) {
    e.outcome.FalseResult? || (e.outcome.NullResult? && e.changes)
  }

  /** The entries of a return that belong to a watched SLS file. */
  function Watched(p: Payload, watched: set<string>): map<string, StateEntry> {
    if p.NoMapping? then map[]
    else map s | s in p.entries && Matches(p.entries[s], watched) :: p.entries[s].value
  }

  /** _narrow_to_watched: (status, partial). */
  function Narrow(p: Payload, watched: set<string>): (Option<Status>, bool) {
    var m := Watched(p, watched);
    if m == map[] then (None, true)
    else if exists s :: s in m && Bad(m[s]) then (Some(Drifted), false)
    else (Some(Good), false)
  }

  /** _narrow_to_watched: the loop over the matched entries. */
  method NarrowToWatched(p: Payload, watched: set<string>) returns (status: Option<Status>, partial: bool)
    ensures (status, partial) == Narrow(p, watched)
  {
    if p.NoMapping? || p.entries == map[] { return None, true; }
    var matched := Watched(p, watched);
    if matched == map[] { return None, true; }
    var todo := matched.Keys;
    while todo != {}
      invariant todo <= matched.Keys
      invariant forall s :: s in matched && s !in todo ==> !Bad(matched[s])
    {
      var s :| s in todo;
      if Bad(matched[s]) { return Some(Drifted), false; }
      todo := todo - {s};
    }
    return Some(Good), false;
  }

  /** The verdict of one return; an empty watch set judges the whole job. */
  function VerdictOf(r: Ret, watched: set<string>): (Status, bool) {
    var whole := if r.success then Good else Drifted;
    if watched == {} then (whole, false)
    else
      var (status, partial) := Narrow(r.payload, watched);
      (if status.Some? then status.value else whole, partial)
  }

  /** State s of a return comes from an SLS file of the watch set. */
  ghost predicate InWatch(r: Ret, watched: set<string>, s: string) {
    && r.payload.States? && s in r.payload.entries && r.payload.entries[s].Some?
    && r.payload.entries[s].value.sls.Some? && r.payload.entries[s].value.sls.value in watched
  }

  /** With a watch set, a return is drifted because one of its watched states came to
      false, or to null with changes pending; when it has no watched state, because the
      job failed, and the verdict is marked partial. Without one, the job decides. */
  lemma VerdictMeans(r: Ret, watched: set<string>)
    ensures var (status, partial) := VerdictOf(r, watched);
            && status in {Good, Drifted}
            && (partial <==> watched != {} && forall s :: !InWatch(r, watched, s))
            && (if watched == {} || partial then status == Drifted <==> !r.success
                else status == Drifted <==>
                       exists s :: InWatch(r, watched, s) && var e := r.payload.entries[s].value;
                                   e.outcome == FalseResult || (e.outcome == NullResult && e.changes))
  {
    var m := Watched(r.payload, watched);
    forall s ensures s in m <==> InWatch(r, watched, s) {}
    assert m == map[] <==> forall s :: s !in m;
  }

  /** A stamped verdict. */
  datatype Verdict = Verdict(status: Status, partial: bool)

  /** What one landing of a job stamps: every minion that returned, and once the job
      is complete every rostered minion that did not. */
  function Stamps(returns': map<Id, Ret>, complete: bool, roster: Option<seq<Id>>,
                  watched: set<string>): map<Id, Verdict> {
    (if complete && roster.Some? then map m | m in roster.value :: Verdict(NotReached, false) else map[])
    + map m | m in returns' :: Verdict(VerdictOf(returns'[m], watched).0, VerdictOf(returns'[m], watched).1)
  }

  /** A job never speaks of a minion it has no return from unless it is complete and
      its target named the minion, and then only as unreachable. */
  lemma StampsAreClaims(returns': map<Id, Ret>, complete: bool, roster: Option<seq<Id>>, watched: set<string>, m: Id)
    ensures m in Stamps(returns', complete, roster, watched) <==>
              m in returns' || (complete && roster.Some? && m in roster.value)
    ensures m in Stamps(returns', complete, roster, watched) ==>
              if m in returns' then Stamps(returns', complete, roster, watched)[m].status != NotReached
              else Stamps(returns', complete, roster, watched)[m] == Verdict(NotReached, false)
  {
  }

  // ------------------------------------------------------------------- out of order

  /** minions.conformity: the verdict and the job it came from. */
  datatype Conformity = Conformity(verdict: Verdict, jid: Jid)

  datatype TrailRow = TrailRow(jid: Jid, status: Status)

  /** Start times of the jobs still in the jobs table. */
  type Started = map<Jid, int>

  datatype Board = Board(conformity: map<Id, Conformity>, trail: map<Id, seq<TrailRow>>)

  /** One landing of one job. */
  datatype Landing = Landing(jid: Jid, stamps: map<Id, Verdict>)

  /** The verdict in place comes from a job that started later. */
  predicate Newer(c: Option<Conformity>, jid: Jid, started: Started) {
    c.Some? && c.value.jid != "" && c.value.jid != jid
    && c.value.jid in started && jid in started && started[c.value.jid] > started[jid]
  }

  function ConformityOf(b: Board, m: Id): Option<Conformity> {
    if m in b.conformity then Some(b.conformity[m]) else None
  }

  function TrailOf(b: Board, m: Id): seq<TrailRow> {
    if m in b.trail then b.trail[m] else []
  }

  /** The minions a landing stamps, the rest being held by newer jobs. */
  predicate Takes(b: Board, l: Landing, started: Started, m: Id) {
    m in l.stamps && !Newer(ConformityOf(b, m), l.jid, started)
  }

  /** The conformity rows a landing writes for the given minions, and their trails. */
  function StampRows(b: Board, l: Landing, started: Started, seen: set<Id>): map<Id, Conformity> {
    map m | m in l.stamps && m in seen && Takes(b, l, started, m) :: Conformity(l.stamps[m], l.jid)
  }

  function StampTrails(b: Board, l: Landing, started: Started, seen: set<Id>): map<Id, seq<TrailRow>> {
    map m | m in l.stamps && m in seen && Takes(b, l, started, m) ::
      Newest(TrailOf(b, m) + [TrailRow(l.jid, l.stamps[m].status)])
  }

  /** The board after the landing has been applied to the given minions. */
  function LandedOn(b: Board, l: Landing, started: Started, seen: set<Id>): Board {
    Board(b.conformity + StampRows(b, l, started, seen), b.trail + StampTrails(b, l, started, seen))
  }

  /** apply_sync_verdicts on the whole board. */
  function Landed(b: Board, l: Landing, started: Started): Board {
    LandedOn(b, l, started, l.stamps.Keys)
  }

  function Run(b: Board, ls: seq<Landing>, started: Started): Board {
    if ls == [] then b else Landed(Run(b, ls[..|ls| - 1], started), ls[|ls| - 1], started)
  }

  lemma LandedAt(b: Board, l: Landing, started: Started, m: Id)
    ensures ConformityOf(Landed(b, l, started), m)
         == if Takes(b, l, started, m) then Some(Conformity(l.stamps[m], l.jid)) else ConformityOf(b, m)
    ensures TrailOf(Landed(b, l, started), m)
         == if Takes(b, l, started, m) then Newest(TrailOf(b, m) + [TrailRow(l.jid, l.stamps[m].status)])
            else TrailOf(b, m)
  {
  }

  /** One landing, minion by minion. Unless the verdict in place comes from another job,
      still known, that started later, a minion that returned is stamped with what its
      return says, and one that did not with unreachable, if the job is complete and
      its target named it; nobody else's verdict or trail moves. */
  lemma LandingMeans(b: Board, jid: Jid, returns': map<Id, Ret>, complete: bool, roster: Option<seq<Id>>,
                     watched: set<string>, started: Started, m: Id)
    ensures var t := Landed(b, Landing(jid, Stamps(returns', complete, roster, watched)), started);
            var held := && m in b.conformity && b.conformity[m].jid != "" && b.conformity[m].jid != jid
                        && b.conformity[m].jid in started && jid in started
                        && started[b.conformity[m].jid] > started[jid];
            var spoken := m in returns' || (complete && roster.Some? && m in roster.value);
            if spoken && !held then
              && m in t.conformity && m in t.trail && t.conformity[m].jid == jid
              && t.trail[m] == Newest(TrailOf(b, m) + [TrailRow(jid, t.conformity[m].verdict.status)])
              && var Verdict(status, partial) := t.conformity[m].verdict;
                 if m !in returns' then status == NotReached && !partial
                 else && status in {Good, Drifted}
                      && (partial <==> watched != {} && forall s :: !InWatch(returns'[m], watched, s))
                      && (if watched == {} || partial then status == Drifted <==> !returns'[m].success
                          else status == Drifted <==>
                                 exists s :: InWatch(returns'[m], watched, s)
                                             && var e := returns'[m].payload.entries[s].value;
                                                e.outcome == FalseResult || (e.outcome == NullResult && e.changes))
            else ConformityOf(t, m) == ConformityOf(b, m) && TrailOf(t, m) == TrailOf(b, m)
  {
    var l := Landing(jid, Stamps(returns', complete, roster, watched));
    StampsAreClaims(returns', complete, roster, watched, m);
    LandedAt(b, l, started, m);
    if m in returns' { VerdictMeans(returns'[m], watched); }
    hide VerdictOf, InWatch, Newest;
    assert m in returns' ==>
        l.stamps[m] == Verdict(VerdictOf(returns'[m], watched).0, VerdictOf(returns'[m], watched).1);
    var t := Landed(b, l, started);
    assert m in t.conformity <==> ConformityOf(t, m).Some?;
    assert TrailOf(t, m) != [] ==> m in t.trail;
  }

  /** Landing k of ls is the last one of its job that touches m. */
  ghost predicate LastOfItsJob(ls: seq<Landing>, k: nat, m: Id)
    requires k < |ls|
  {
    m in ls[k].stamps && forall j :: k < j < |ls| && ls[j].jid == ls[k].jid ==> m !in ls[j].stamps
  }

  /** Landing k is of the latest-started job that touches m. */
  ghost predicate LatestStarted(ls: seq<Landing>, k: nat, m: Id, started: Started)
    requires k < |ls| && AllKnown(ls, started)
  {
    m in ls[k].stamps && forall j :: 0 <= j < |ls| && m in ls[j].stamps ==> started[ls[j].jid] <= started[ls[k].jid]
  }

  ghost predicate AllKnown(ls: seq<Landing>, started: Started) {
    forall j :: 0 <= j < |ls| ==> ls[j].jid in started && ls[j].jid != ""
  }

  /** Different jobs started at different times. */
  ghost predicate Distinct(started: Started) {
    forall i, j :: i in started && j in started && started[i] == started[j] ==> i == j
  }

  ghost predicate Touched(ls: seq<Landing>, m: Id) {
    exists j :: 0 <= j < |ls| && m in ls[j].stamps
  }

  /** A verdict no landing can lose to: none, or one whose job is unknown by now. */
  predicate Rootless(c: Option<Conformity>, started: Started) {
    c.None? || c.value.jid == "" || c.value.jid !in started
  }

  /** Where a minion that began at start stands after the landings ls. */
  ghost predicate Settled(c: Option<Conformity>, start: Option<Conformity>, ls: seq<Landing>, m: Id, started: Started)
    requires AllKnown(ls, started)
  {
    if !Touched(ls, m) then c == start
    else exists k :: 0 <= k < |ls| && LastOfItsJob(ls, k, m) && LatestStarted(ls, k, m, started)
                     && c == Some(Conformity(ls[k].stamps[m], ls[k].jid))
  }

  /** The history a board's verdict on m stands for: the landing that stamped it,
      unless its job is unknown. */
  function Prior(c: Option<Conformity>, m: Id, started: Started): seq<Landing> {
    if Rootless(c, started) then [] else [Landing(c.value.jid, map[m := c.value.verdict])]
  }

  /** Out-of-order safety, for any landings of any jobs in any order and number: a
      minion ends with the verdict, and the job, of the latest-started job that ever
      touched it (the one behind its first verdict included), as that job's last
      landing stated it; untouched, it keeps what it had. */
  lemma {:induction false} LatestJobWins(b: Board, ls: seq<Landing>, started: Started, m: Id)
    requires AllKnown(ls, started) && Distinct(started)
    ensures AllKnown(Prior(ConformityOf(b, m), m, started) + ls, started)
    ensures Settled(ConformityOf(Run(b, ls, started), m), ConformityOf(b, m),
                    Prior(ConformityOf(b, m), m, started) + ls, m, started)
  {
    hide Settled, AllKnown, Prior, Landed, ConformityOf, Newer, Distinct;
    var prior := Prior(ConformityOf(b, m), m, started);
    if ls == [] {
      PriorSettles(ConformityOf(b, m), m, started);
      EmptyAppends(prior);
    } else {
      var front, l, n := ls[..|ls| - 1], ls[|ls| - 1], |ls| - 1;
      Splits(ls, n, n);
      LastKnown(ls, started);
      LatestJobWins(b, front, started, m);
      PriorFirst(ConformityOf(b, m), front, m, started);
      LandedSettles(b, Run(b, front, started), prior + front, l, m, started);
      Associates(prior, front, [l]);
      assert ls[n..] == [l];
    }
  }

  lemma PriorSettles(c: Option<Conformity>, m: Id, started: Started)
    ensures AllKnown(Prior(c, m, started), started)
    ensures Settled(c, c, Prior(c, m, started), m, started)
  {
    var prior := Prior(c, m, started);
    if prior != [] { assert LastOfItsJob(prior, 0, m) && LatestStarted(prior, 0, m, started); }
  }

  lemma LandedSettles(first: Board, b: Board, front: seq<Landing>, l: Landing, m: Id, started: Started)
    requires AllKnown(front, started) && Distinct(started) && l.jid in started && l.jid != ""
    requires Settled(ConformityOf(b, m), ConformityOf(first, m), front, m, started)
    requires Rootless(ConformityOf(first, m), started) || Touched(front, m)
    ensures AllKnown(front + [l], started)
    ensures Settled(ConformityOf(Landed(b, l, started), m), ConformityOf(first, m), front + [l], m, started)
  {
    hide Settled, AllKnown, Landed, ConformityOf, Newer, Distinct;
    LandedAt(b, l, started, m);
    SettledSnoc(ConformityOf(b, m), ConformityOf(first, m), front, l, m, started);
  }

  lemma LastKnown(ls: seq<Landing>, started: Started)
    requires AllKnown(ls, started) && ls != []
    ensures AllKnown(ls[..|ls| - 1], started)
    ensures ls[|ls| - 1].jid in started && ls[|ls| - 1].jid != ""
  {
  }

  /** A verdict of a known job touches its minion. */
  lemma PriorFirst(start: Option<Conformity>, ls: seq<Landing>, m: Id, started: Started)
    ensures Rootless(start, started) || Touched(Prior(start, m, started) + ls, m)
  {
    if !Rootless(start, started) {
      assert (Prior(start, m, started) + ls)[0] == Prior(start, m, started)[0];
    }
  }

  lemma StaysLast(front: seq<Landing>, l: Landing, k: nat, m: Id, started: Started)
    requires AllKnown(front, started) && AllKnown(front + [l], started) && l.jid in started && k < |front|
    requires front[k].jid in started
    requires LastOfItsJob(front, k, m) && LatestStarted(front, k, m, started)
    requires m in l.stamps ==> started[l.jid] < started[front[k].jid]
    ensures (front + [l])[k] == front[k]
    ensures LastOfItsJob(front + [l], k, m) && LatestStarted(front + [l], k, m, started)
  {
    var ls := front + [l];
    forall j | 0 <= j < |ls| ensures ls[j] == if j < |front| then front[j] else l {}
  }

  lemma BecomesLast(front: seq<Landing>, l: Landing, m: Id, started: Started)
    requires AllKnown(front, started) && AllKnown(front + [l], started) && l.jid in started && m in l.stamps
    requires forall j :: 0 <= j < |front| && m in front[j].stamps ==> started[front[j].jid] <= started[l.jid]
    ensures (front + [l])[|front|] == l
    ensures LastOfItsJob(front + [l], |front|, m) && LatestStarted(front + [l], |front|, m, started)
  {
    var ls := front + [l];
    forall j | 0 <= j < |ls| ensures ls[j] == if j < |front| then front[j] else l {}
  }

  /** One more landing keeps the settled form. */
  lemma SettledSnoc(c: Option<Conformity>, start: Option<Conformity>, front: seq<Landing>, l: Landing, m: Id,
                    started: Started)
    requires AllKnown(front, started) && Distinct(started) && l.jid in started && l.jid != ""
    requires Settled(c, start, front, m, started)
    requires Rootless(start, started) || Touched(front, m)
    ensures AllKnown(front + [l], started)
    ensures var after := if m in l.stamps && !Newer(c, l.jid, started) then Some(Conformity(l.stamps[m], l.jid)) else c;
            Settled(after, start, front + [l], m, started)
  {
    hide LatestStarted;
    var ls := front + [l];
    assert forall j :: 0 <= j < |ls| ==> ls[j] == if j < |front| then front[j] else l;
    if Touched(front, m) {
      var k :| 0 <= k < |front| && LastOfItsJob(front, k, m) && LatestStarted(front, k, m, started)
               && c == Some(Conformity(front[k].stamps[m], front[k].jid));
      LatestBounds(front, k, m, started);
      if m in l.stamps && !Newer(c, l.jid, started) {
        BecomesLast(front, l, m, started);
        assert ls[|front|] == l;
      } else {
        StaysLast(front, l, k, m, started);
      }
      assert Touched(ls, m);
    } else if m in l.stamps {
      BecomesLast(front, l, m, started);
      assert ls[|front|] == l && Touched(ls, m);
    }
  }

  lemma LatestBounds(ls: seq<Landing>, k: nat, m: Id, started: Started)
    requires AllKnown(ls, started) && k < |ls| && LatestStarted(ls, k, m, started)
    ensures m in ls[k].stamps
    ensures forall j :: 0 <= j < |ls| && m in ls[j].stamps ==> started[ls[j].jid] <= started[ls[k].jid]
  {
  }

  // ------------------------------------------------------------------ forgotten jobs

  /** A landing, or the deletion of a job row. */
  datatype Event = Land(landing: Landing) | Forget(jid: Jid)

  function Forgotten(es: seq<Event>): set<Jid> {
    set k | 0 <= k < |es| && es[k].Forget? :: es[k].jid
  }

  /** The start times still known after es. */
  function Remembered(started: Started, es: seq<Event>): Started {
    started - Forgotten(es)
  }

  /** The board after landings, each judged by the jobs then known. */
  function AfterEvents(b: Board, started: Started, es: seq<Event>): Board
    decreases es
  {
    if es == [] then b
    else
      var front, e := es[..|es| - 1], es[|es| - 1];
      var before := AfterEvents(b, started, front);
      if e.Land? then Landed(before, e.landing, Remembered(started, front)) else before
  }

  function Landings(es: seq<Event>): seq<Landing>
    decreases es
  {
    if es == [] then []
    else Landings(es[..|es| - 1]) + if es[|es| - 1].Land? then [es[|es| - 1].landing] else []
  }

  /** Every landing is of a job known at the time. */
  ghost predicate LandsKnown(started: Started, es: seq<Event>) {
    forall k :: 0 <= k < |es| && es[k].Land? ==>
      es[k].landing.jid in Remembered(started, es[..k]) && es[k].landing.jid != ""
  }

  /** No job is forgotten while the verdict on m is its own. */
  ghost predicate HolderKept(b: Board, started: Started, es: seq<Event>, m: Id) {
    forall k :: 0 <= k < |es| && es[k].Forget? ==>
      var c := ConformityOf(AfterEvents(b, started, es[..k]), m);
      c.None? || c.value.jid != es[k].jid
  }

  lemma FrontHolds(b: Board, started: Started, es: seq<Event>, m: Id)
    requires es != [] && LandsKnown(started, es) && HolderKept(b, started, es, m)
    ensures LandsKnown(started, es[..|es| - 1]) && HolderKept(b, started, es[..|es| - 1], m)
  {
    var front := es[..|es| - 1];
    forall k | 0 <= k < |front| ensures front[k] == es[k] && front[..k] == es[..k] {}
  }

  lemma RememberedSnoc(started: Started, es: seq<Event>)
    requires es != []
    ensures var front, e := es[..|es| - 1], es[|es| - 1];
            Remembered(started, es)
            == if e.Forget? then Remembered(started, front) - {e.jid} else Remembered(started, front)
  {
    var front, e := es[..|es| - 1], es[|es| - 1];
    forall j ensures j in Forgotten(es) <==> j in Forgotten(front) || (e.Forget? && j == e.jid) {
      if j in Forgotten(front) {
        var k :| 0 <= k < |front| && front[k].Forget? && front[k].jid == j;
        assert es[k] == front[k];
      }
      if j in Forgotten(es) {
        var k :| 0 <= k < |es| && es[k].Forget? && es[k].jid == j;
        assert k < |front| ==> front[k] == es[k];
      }
      if e.Forget? && j == e.jid { assert es[|es| - 1].jid in Forgotten(es); }
    }
  }

  /** While no holder is forgotten, forgetting jobs changes no verdict on m. */
  lemma {:induction false} ForgettingIsSilent(b: Board, started: Started, es: seq<Event>, m: Id)
    requires LandsKnown(started, es) && HolderKept(b, started, es, m)
    ensures AllKnown(Landings(es), started)
    ensures ConformityOf(AfterEvents(b, started, es), m) == ConformityOf(Run(b, Landings(es), started), m)
    ensures var c := ConformityOf(AfterEvents(b, started, es), m);
            Rootless(c, started) || c.value.jid in Remembered(started, es)
    decreases es
  {
    hide Landed, ConformityOf, LandsKnown, HolderKept, Remembered;
    if es == [] {
      NothingForgotten(started);
    } else {
      var front, e := es[..|es| - 1], es[|es| - 1];
      FrontHolds(b, started, es, m);
      ForgettingIsSilent(b, started, front, m);
      RememberedSnoc(started, es);
      LastEvent(b, started, es, m);
      EmptyAppends(Landings(front));
      if e.Land? {
        var l := e.landing;
        var known := Remembered(started, front);
        RunSnoc(b, Landings(front), l, started);
        KnownStays(started, front, l.jid);
        LandedAt(AfterEvents(b, started, front), l, known, m);
        LandedAt(Run(b, Landings(front), started), l, started, m);
        SameJudgement(ConformityOf(AfterEvents(b, started, front), m), l.jid, started, front);
      }
    }
  }

  lemma NothingForgotten(started: Started)
    ensures Remembered(started, []) == started
  {
  }

  lemma KnownStays(started: Started, es: seq<Event>, jid: Jid)
    requires jid in Remembered(started, es)
    ensures jid in started && Remembered(started, es)[jid] == started[jid]
  {
  }

  lemma LastEvent(b: Board, started: Started, es: seq<Event>, m: Id)
    requires es != [] && LandsKnown(started, es) && HolderKept(b, started, es, m)
    ensures var front, e := es[..|es| - 1], es[|es| - 1];
            if e.Land? then e.landing.jid in Remembered(started, front) && e.landing.jid != ""
            else
              var c := ConformityOf(AfterEvents(b, started, front), m);
              c.None? || c.value.jid != e.jid
  {
  }

  lemma RunSnoc(b: Board, ls: seq<Landing>, l: Landing, started: Started)
    ensures Run(b, ls + [l], started) == Landed(Run(b, ls, started), l, started)
    ensures AllKnown(ls, started) && l.jid in started && l.jid != "" ==> AllKnown(ls + [l], started)
  {
    hide Landed;
    assert (ls + [l])[..|ls|] == ls;
  }

  /** A holder that is unknown from the start, or still known, is judged alike with and
      without the forgotten jobs. */
  lemma SameJudgement(c: Option<Conformity>, jid: Jid, started: Started, es: seq<Event>)
    requires jid in Remembered(started, es)
    requires Rootless(c, started) || c.value.jid in Remembered(started, es)
    ensures Newer(c, jid, Remembered(started, es)) <==> Newer(c, jid, started)
  {
  }

  /** The latest job wins though jobs are deleted: from any moment on, as long as the
      job behind a minion's verdict is not the one deleted, the verdict is that of the
      latest-started job that touched the minion since, or of the one behind its verdict
      at that moment. */
  lemma LatestJobWinsForgetting(b: Board, started: Started, es: seq<Event>, m: Id)
    requires LandsKnown(started, es) && HolderKept(b, started, es, m) && Distinct(started)
    ensures AllKnown(Prior(ConformityOf(b, m), m, started) + Landings(es), started)
    ensures Settled(ConformityOf(AfterEvents(b, started, es), m), ConformityOf(b, m),
                    Prior(ConformityOf(b, m), m, started) + Landings(es), m, started)
  {
    hide AfterEvents, Run, ConformityOf, LandsKnown, HolderKept, Settled;
    ForgettingIsSilent(b, started, es, m);
    LatestJobWins(b, Landings(es), started, m);
  }

  /** Once it is, the verdict yields to the next landing that touches the minion,
      whenever its job started. */
  lemma ForgottenYields(b: Board, l: Landing, started: Started, jid: Jid, m: Id)
    requires ConformityOf(b, m).Some? && ConformityOf(b, m).value.jid == jid && m in l.stamps
    ensures ConformityOf(Landed(b, l, started - {jid}), m) == Some(Conformity(l.stamps[m], l.jid))
    ensures Prior(ConformityOf(b, m), m, started - {jid}) == []
  {
    hide Landed;
    LandedAt(b, l, started - {jid}, m);
  }

  // --------------------------------------------------------------- in any order

  /** What each job finally says of a minion. */
  ghost predicate Final(ls: seq<Landing>, verdicts: map<Jid, map<Id, Verdict>>) {
    forall j :: 0 <= j < |ls| ==> ls[j].jid in verdicts && ls[j].stamps == verdicts[ls[j].jid]
  }

  ghost predicate Lands(ls: seq<Landing>, jid: Jid) {
    exists j :: 0 <= j < |ls| && ls[j].jid == jid
  }

  ghost predicate SameJobs(a: seq<Landing>, b: seq<Landing>) {
    forall jid :: Lands(a, jid) <==> Lands(b, jid)
  }

  /** Final verdicts settle alike in any order and any number of repetitions: two runs
      landing the same jobs leave the same verdict on every minion that began with
      none, or with one of a job no longer known. */
  lemma OrderDoesNotMatter(board: Board, a: seq<Landing>, b: seq<Landing>, started: Started,
                           verdicts: map<Jid, map<Id, Verdict>>, m: Id)
    requires AllKnown(a, started) && AllKnown(b, started) && Distinct(started)
    requires Final(a, verdicts) && Final(b, verdicts) && SameJobs(a, b)
    requires Rootless(ConformityOf(board, m), started)
    ensures ConformityOf(Run(board, a, started), m) == ConformityOf(Run(board, b, started), m)
  {
    hide Run, ConformityOf;
    assert Prior(ConformityOf(board, m), m, started) == [];
    LatestJobWins(board, a, started, m);
    LatestJobWins(board, b, started, m);
    EmptyAppends(a);
    EmptyAppends(b);
    SettledAlike(ConformityOf(Run(board, a, started), m), ConformityOf(Run(board, b, started), m),
                 ConformityOf(board, m), a, b, started, verdicts, m);
  }

  lemma SettledAlike(c: Option<Conformity>, d: Option<Conformity>, start: Option<Conformity>, a: seq<Landing>,
                     b: seq<Landing>, started: Started, verdicts: map<Jid, map<Id, Verdict>>, m: Id)
    requires AllKnown(a, started) && AllKnown(b, started) && Distinct(started)
    requires Final(a, verdicts) && Final(b, verdicts) && SameJobs(a, b)
    requires Settled(c, start, a, m, started) && Settled(d, start, b, m, started)
    ensures c == d
  {
    TouchedAlike(a, b, verdicts, m);
    TouchedAlike(b, a, verdicts, m);
    if Touched(a, m) {
      var i :| 0 <= i < |a| && LastOfItsJob(a, i, m) && LatestStarted(a, i, m, started)
               && c == Some(Conformity(a[i].stamps[m], a[i].jid));
      var k :| 0 <= k < |b| && LastOfItsJob(b, k, m) && LatestStarted(b, k, m, started)
               && d == Some(Conformity(b[k].stamps[m], b[k].jid));
      var i' := Counterpart(a, b, i, verdicts);
      var k' := Counterpart(b, a, k, verdicts);
      assert m in b[i'].stamps && m in a[k'].stamps;
      assert started[b[i'].jid] <= started[b[k].jid] && started[a[k'].jid] <= started[a[i].jid];
      assert a[i].jid == b[k].jid;
    }
  }

  lemma Counterpart(a: seq<Landing>, b: seq<Landing>, i: nat, verdicts: map<Jid, map<Id, Verdict>>) returns (k: nat)
    requires SameJobs(a, b) && i < |a| && Final(a, verdicts) && Final(b, verdicts)
    ensures k < |b| && b[k].jid == a[i].jid && b[k].stamps == a[i].stamps
  {
    assert Lands(a, a[i].jid);
    assert Lands(b, a[i].jid);
    k :| 0 <= k < |b| && b[k].jid == a[i].jid;
  }

  lemma TouchedAlike(a: seq<Landing>, b: seq<Landing>, verdicts: map<Jid, map<Id, Verdict>>, m: Id)
    requires Final(a, verdicts) && Final(b, verdicts) && SameJobs(a, b)
    ensures Touched(a, m) ==> Touched(b, m)
  {
    if Touched(a, m) {
      var i :| 0 <= i < |a| && m in a[i].stamps;
      var k := Counterpart(a, b, i, verdicts);
      assert m in b[k].stamps;
    }
  }

  // ----------------------------------------------------------------------- recomputing

  /** What recompute_conformity makes of a job's returns: it forgets which verdicts are
      partial. */
  function Whole(jid: Jid, returns': map<Id, Ret>, watched: set<string>): Landing {
    Landing(jid, map m | m in returns' :: Verdict(VerdictOf(returns'[m], watched).0, false))
  }

  /** It asks no verdict in place whether its job started later, as if no start time
      were known. */
  function Recomputed(b: Board, l: Landing): Board {
    Landed(b, l, map[])
  }

  /** Every minion that returned gets the job's verdict, and no other is touched. */
  lemma RecomputedMeans(b: Board, jid: Jid, returns': map<Id, Ret>, watched: set<string>, m: Id)
    ensures var t := Recomputed(b, Whole(jid, returns', watched));
            if m in returns' then
              && ConformityOf(t, m) == Some(Conformity(Verdict(VerdictOf(returns'[m], watched).0, false), jid))
              && TrailOf(t, m) == Newest(TrailOf(b, m) + [TrailRow(jid, VerdictOf(returns'[m], watched).0)])
            else ConformityOf(t, m) == ConformityOf(b, m) && TrailOf(t, m) == TrailOf(b, m)
  {
    hide VerdictOf, Newest, Landed;
    LandedAt(b, Whole(jid, returns', watched), map[], m);
  }

  /** Recomputing is an ordinary landing exactly when no minion that returned is held by
      a job that started later. */
  lemma RecomputeIsLanding(b: Board, l: Landing, started: Started)
    ensures Recomputed(b, l) == Landed(b, l, started)
       <==> forall m :: m in l.stamps ==> !Newer(ConformityOf(b, m), l.jid, started)
  {
    if m :| m in l.stamps && Newer(ConformityOf(b, m), l.jid, started) {
      hide Landed;
      LandedAt(b, l, started, m);
      LandedAt(b, l, map[], m);
    } else {
      hide Newest, Newer, ConformityOf;
      forall m | m in l.stamps ensures Takes(b, l, started, m) && Takes(b, l, map[], m) { NoneNewer(b, l.jid, m); }
      hide Takes, TrailOf;
      assert StampRows(b, l, started, l.stamps.Keys) == StampRows(b, l, map[], l.stamps.Keys);
      assert StampTrails(b, l, started, l.stamps.Keys) == StampTrails(b, l, map[], l.stamps.Keys);
    }
  }

  lemma NoneNewer(b: Board, jid: Jid, m: Id)
    ensures !Newer(ConformityOf(b, m), jid, map[])
  {
  }

  /** So is recomputing from the latest-started job after any landings: the latest job
      still wins. */
  lemma LatestWinsRecomputed(b: Board, ls: seq<Landing>, l: Landing, started: Started, m: Id)
    requires AllKnown(ls, started) && Distinct(started) && l.jid in started && l.jid != ""
    requires forall j :: j in started ==> started[j] <= started[l.jid]
    ensures var all := Prior(ConformityOf(b, m), m, started) + (ls + [l]);
            && Recomputed(Run(b, ls, started), l) == Run(b, ls + [l], started)
            && AllKnown(all, started)
            && Settled(ConformityOf(Run(b, ls + [l], started), m), ConformityOf(b, m), all, m, started)
  {
    hide Landed, Recomputed, Prior, Settled;
    RunSnoc(b, ls, l, started);
    RecomputeIsLanding(Run(b, ls, started), l, started);
    LatestJobWins(b, ls + [l], started, m);
  }

  // --------------------------------------------------------------------------- trail

  /** Every record ever made for m, in order. */
  function Records(b: Board, ls: seq<Landing>, started: Started, m: Id): seq<TrailRow> {
    if ls == [] then TrailOf(b, m)
    else
      var front, l := ls[..|ls| - 1], ls[|ls| - 1];
      Records(b, front, started, m)
      + if Takes(Run(b, front, started), l, started, m) then [TrailRow(l.jid, l.stamps[m].status)] else []
  }

  /** The trail of a minion is always the newest twenty of its records, in order, and
      grows by one exactly when a verdict is stamped. */
  lemma {:induction false} TrailIsNewest(b: Board, ls: seq<Landing>, started: Started, m: Id)
    requires |TrailOf(b, m)| <= HISTORY_LIMIT
    ensures TrailOf(Run(b, ls, started), m) == Newest(Records(b, ls, started, m))
  {
    if ls != [] {
      var front, l := ls[..|ls| - 1], ls[|ls| - 1];
      TrailIsNewest(b, front, started, m);
      LandedAt(Run(b, front, started), l, started, m);
      if Takes(Run(b, front, started), l, started, m) {
        NewestOfNewest(Records(b, front, started, m), TrailRow(l.jid, l.stamps[m].status));
      } else {
        EmptyAppends(Records(b, front, started, m));
      }
    }
  }

  // ------------------------------------------------------------------------- methods

  class ConformityStore {
    var conformity: map<Id, Conformity>
    var trail: map<Id, seq<TrailRow>>

    ghost function Model(): Board
      reads this
    {
      Board(conformity, trail)
    }

    constructor ()
      ensures Model() == Board(map[], map[])
    {
      conformity, trail := map[], map[];
    }

    /** _record_history: append, then delete everything past the newest twenty, oldest
        last. */
    method RecordHistory(m: Id, row: TrailRow)
      modifies this`trail
      ensures trail == old(trail)[m := Newest(TrailOf(old(Model()), m) + [row])]
    {
      var rows := (if m in trail then trail[m] else []) + [row];
      ghost var all, n := rows, 0;
      assert all[0..] == all;
      while |rows| > HISTORY_LIMIT
        invariant 0 <= n <= |all| && rows == all[n..] && |rows| == |all| - n
        invariant n > 0 ==> |rows| >= HISTORY_LIMIT
        invariant trail == old(trail)
      {
        DropOne(all, n);
        rows, n := rows[1..], n + 1;
      }
      assert rows == Newest(all);
      trail := trail[m := rows];
    }

    /** The stamping part of the loop body of apply_sync_verdicts. */
    method Stamp(m: Id, verdict: Verdict, jid: Jid, started: Started)
      modifies this
      ensures Model() == Stamped(old(Model()), m, verdict, jid, started)
    {
      hide Newest, Newer;
      var standing := if m in conformity then Some(conformity[m]) else None;
      if !Newer(standing, jid, started) {
        conformity := conformity[m := Conformity(verdict, jid)];
        RecordHistory(m, TrailRow(jid, verdict.status));
      }
    }

    /** The stamping part of the loop body of recompute_conformity. */
    method Overwrite(m: Id, status: Status, jid: Jid)
      modifies this
      ensures Model() == Stamped(old(Model()), m, Verdict(status, false), jid, map[])
    {
      conformity := conformity[m := Conformity(Verdict(status, false), jid)];
      RecordHistory(m, TrailRow(jid, status));
    }

    /** recompute_conformity, for the latest-started state job and its stored returns. */
    method RecomputeConformity(latest: Option<Jid>, returns': map<Id, Ret>, watched: set<string>)
      returns (source: Option<Jid>)
      modifies this
      ensures source == if returns' == map[] then None else latest
      ensures Model() == match source
                         case None => old(Model())
                         case Some(jid) => Recomputed(old(Model()), Whole(jid, returns', watched))
    {
      hide Newest, Newer, LandedOn, Sorted, Whole, Judgement, Stamped, VerdictOf;
      if latest.None? || returns' == map[] { return None; }
      var jid := latest.value;
      ghost var b, l := Model(), Whole(jid, returns', watched);
      WholeIs(jid, returns', watched);
      var touched := Sorted(returns'.Keys);
      ghost var seen: set<Id> := {};
      NothingLanded(b, l, map[]);
      for k := 0 to |touched|
        invariant seen == set m | m in touched[..k]
        invariant Model() == LandedOn(b, l, map[], seen)
      {
        var m := touched[k];
        assert touched[..k + 1] == touched[..k] + [m];
        assert m !in seen && m in l.stamps;
        LandOne(b, l, map[], seen, m);
        JudgedReturn(returns', watched, m);
        var verdict := Judge(returns', watched, m);
        Overwrite(m, verdict.status, jid);
        seen := seen + {m};
      }
      assert touched[..|touched|] == touched;
      assert seen == l.stamps.Keys;
      LandedWhole(b, l, map[]);
      return latest;
    }

    /** apply_sync_verdicts: only a state job stamps; the verdict of each touched minion
        is worked out as the loop comes to it. */
    method ApplySyncVerdicts(jid: Jid, stateJob: bool, complete: bool, roster: Option<seq<Id>>,
                             returns': map<Id, Ret>, watched: set<string>, started: Started)
      modifies this
      ensures var l := Landing(jid, Stamps(returns', complete, roster, watched));
              Model() == if stateJob then Landed(old(Model()), l, started) else old(Model())
    {
      hide Newest, Newer, LandedOn, Sorted, Stamps, Judgement, Stamped;
      if !stateJob { return; }
      ghost var b, l := Model(), Landing(jid, Stamps(returns', complete, roster, watched));
      var ids := returns'.Keys;
      if complete && roster.Some? { ids := ids + set m | m in roster.value; }
      StampedIds(returns', complete, roster, watched);
      var touched := Sorted(ids);
      ghost var seen: set<Id> := {};
      NothingLanded(b, l, started);
      for k := 0 to |touched|
        invariant seen == set m | m in touched[..k]
        invariant Model() == LandedOn(b, l, started, seen)
      {
        var m := touched[k];
        assert touched[..k + 1] == touched[..k] + [m];
        assert m !in seen && m in l.stamps;
        LandOne(b, l, started, seen, m);
        StampAt(returns', complete, roster, watched, m);
        var verdict := Judge(returns', watched, m);
        Stamp(m, verdict, jid, started);
        seen := seen + {m};
      }
      assert touched[..|touched|] == touched;
      assert seen == l.stamps.Keys;
      LandedWhole(b, l, started);
    }
  }

  /** The board after one minion was stamped, unless a newer job holds it. */
  function Stamped(b: Board, m: Id, verdict: Verdict, jid: Jid, started: Started): Board {
    if Newer(ConformityOf(b, m), jid, started) then b
    else
      Board(b.conformity[m := Conformity(verdict, jid)],
            b.trail[m := Newest(TrailOf(b, m) + [TrailRow(jid, verdict.status)])])
  }

  lemma LandOne(b: Board, l: Landing, started: Started, seen: set<Id>, m: Id)
    requires m in l.stamps && m !in seen
    ensures Stamped(LandedOn(b, l, started, seen), m, l.stamps[m], l.jid, started)
         == LandedOn(b, l, started, seen + {m})
  {
    hide Newest, Newer, LandedOn, ConformityOf, TrailOf;
    StandsAt(b, l, started, seen, m);
    LandStep(b, l, started, seen, m);
  }

  lemma StampedIds(returns': map<Id, Ret>, complete: bool, roster: Option<seq<Id>>, watched: set<string>)
    ensures Stamps(returns', complete, roster, watched).Keys
         == returns'.Keys + if complete && roster.Some? then (set m | m in roster.value) else {}
  {
    hide VerdictOf;
  }

  lemma StampAt(returns': map<Id, Ret>, complete: bool, roster: Option<seq<Id>>, watched: set<string>, m: Id)
    requires m in Stamps(returns', complete, roster, watched)
    ensures Stamps(returns', complete, roster, watched)[m] == Judgement(returns', watched, m)
  {
    hide VerdictOf;
  }

  /** What is said of one touched minion. */
  function Judgement(returns': map<Id, Ret>, watched: set<string>, m: Id): Verdict {
    if m in returns' then Verdict(VerdictOf(returns'[m], watched).0, VerdictOf(returns'[m], watched).1)
    else Verdict(NotReached, false)
  }

  lemma WholeIs(jid: Jid, returns': map<Id, Ret>, watched: set<string>)
    ensures var l := Whole(jid, returns', watched);
            && l.jid == jid && l.stamps.Keys == returns'.Keys
            && forall m :: m in returns' ==> l.stamps[m] == Verdict(VerdictOf(returns'[m], watched).0, false)
  {
    hide VerdictOf;
  }

  lemma JudgedReturn(returns': map<Id, Ret>, watched: set<string>, m: Id)
    requires m in returns'
    ensures Judgement(returns', watched, m).status == VerdictOf(returns'[m], watched).0
  {
    hide VerdictOf;
  }

  /** The verdict part of the loop body of apply_sync_verdicts. */
  method Judge(returns': map<Id, Ret>, watched: set<string>, m: Id) returns (verdict: Verdict)
    ensures verdict == Judgement(returns', watched, m)
  {
    hide Narrow;
    var status, partial := NotReached, false;
    if m in returns' {
      status := if returns'[m].success then Good else Drifted;
      if watched != {} {
        var narrowed;
        narrowed, partial := NarrowToWatched(returns'[m].payload, watched);
        if narrowed.Some? { status := narrowed.value; }
      }
    }
    verdict := Verdict(status, partial);
  }

  lemma LandedWhole(b: Board, l: Landing, started: Started)
    ensures Landed(b, l, started) == LandedOn(b, l, started, l.stamps.Keys)
  {
  }

  lemma NothingLanded(b: Board, l: Landing, started: Started)
    ensures LandedOn(b, l, started, {}) == b
  {
    hide Takes, Newest;
    assert StampRows(b, l, started, {}) == map[] && StampTrails(b, l, started, {}) == map[];
  }

  lemma StandsAt(b: Board, l: Landing, started: Started, seen: set<Id>, m: Id)
    requires m !in seen
    ensures ConformityOf(LandedOn(b, l, started, seen), m) == ConformityOf(b, m)
    ensures TrailOf(LandedOn(b, l, started, seen), m) == TrailOf(b, m)
  {
    hide Takes, Newest;
  }

  lemma LandStep(b: Board, l: Landing, started: Started, seen: set<Id>, m: Id)
    requires m in l.stamps && m !in seen
    ensures var before, after := LandedOn(b, l, started, seen), LandedOn(b, l, started, seen + {m});
            if Takes(b, l, started, m) then
              && after.conformity == before.conformity[m := Conformity(l.stamps[m], l.jid)]
              && after.trail == before.trail[m := Newest(TrailOf(b, m) + [TrailRow(l.jid, l.stamps[m].status)])]
            else after == before
  {
    RowsStep(b, l, started, seen, m);
    hide Takes, Newest, StampRows, StampTrails, TrailOf;
    if Takes(b, l, started, m) {
      Overlay(b.conformity, StampRows(b, l, started, seen), m, Conformity(l.stamps[m], l.jid));
      Overlay(b.trail, StampTrails(b, l, started, seen), m,
          Newest(TrailOf(b, m) + [TrailRow(l.jid, l.stamps[m].status)]));
    }
  }

  lemma RowsStep(b: Board, l: Landing, started: Started, seen: set<Id>, m: Id)
    requires m in l.stamps && m !in seen
    ensures StampRows(b, l, started, seen + {m})
         == if Takes(b, l, started, m) then StampRows(b, l, started, seen)[m := Conformity(l.stamps[m], l.jid)]
            else StampRows(b, l, started, seen)
    ensures StampTrails(b, l, started, seen + {m})
         == if Takes(b, l, started, m)
            then StampTrails(b, l, started, seen)[m := Newest(TrailOf(b, m) + [TrailRow(l.jid, l.stamps[m].status)])]
            else StampTrails(b, l, started, seen)
  {
    hide Takes, Newest, TrailOf;
  }
}
