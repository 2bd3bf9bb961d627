/** The scheduled file sync: which minute is due, when a due minute is skipped as done,
    and what runs of ticks, manual syncs and failures can and cannot do. */
module SlotSchedule {
  import opened Options

  /** Minutes, as a number of minutes; a schedule says which minutes match. One that is
      off matches none. */
  type Minute = int

  type Matching = Minute -> bool

  datatype Status = NeverRun | Failed | Warning | Success

  /** The stored settings, and whether the fileserver still serves files older than
      those pulled. */
  datatype State = State(lastStatus: Status, lastSlot: Option<Minute>, stale: bool)

  /** What the git sync, and the fileserver refresh if one is made, come to. */
  datatype Outcome = GitFails | Pulls(changed: bool, refreshWorks: bool)

  datatype Event = Tick(second: int, outcome: Outcome) | Manual(outcome: Outcome)

  function MinuteOf(second: int): Minute {
    second / 60
  }

  /** due_slot: this minute, or the one before it, when it matches. */
  function Due(matches: Matching, second: int): Option<Minute> {
    var m := MinuteOf(second);
    if matches(m) then Some(m) else if matches(m - 1) then Some(m - 1) else None
  }

  /** Whether _sync_now asks the fileserver to refresh. */
  predicate Refreshes(s: State, changed: bool) {
    changed || s.lastStatus.Warning?
  }

  /** _sync_now: the slot is recorded when the git sync succeeds, whatever the refresh
      then does, and never when it fails. */
  function Synced(s: State, outcome: Outcome, slot: Option<Minute>): State {
    match outcome
    case GitFails => State(Failed, s.lastSlot, s.stale)
    case Pulls(changed, refreshWorks) =>
      var failed := Refreshes(s, changed) && !refreshWorks;
      State(if failed then Warning else Success,
            if slot.Some? then slot else s.lastSlot,
            if Refreshes(s, changed) then !refreshWorks else s.stale)
  }

  /** The slot an event attempts: a tick's due one unless it was the last to succeed. */
  function Attempts(s: State, e: Event, matches: Matching): Option<Minute> {
    match e
    case Manual(_) => None
    case Tick(second, _) => if s.lastSlot == Due(matches, second) then None else Due(matches, second)
  }

  /** run_scheduled_sync, run_manual_sync */
  function Step(s: State, e: Event, matches: Matching): State {
    match e
    case Manual(outcome) => Synced(s, outcome, None)
    case Tick(second, outcome) =>
      var slot := Attempts(s, e, matches);
      if slot.None? then s else Synced(s, outcome, slot)
  }

  function Run(s: State, es: seq<Event>, matches: Matching): State
    decreases es
  {
    if es == [] then s else Step(Run(s, es[..|es| - 1], matches), es[|es| - 1], matches)
  }

  lemma RunStep(s: State, es: seq<Event>, k: nat, matches: Matching)
    requires k < |es|
    ensures Run(s, es[..k + 1], matches) == Step(Run(s, es[..k], matches), es[k], matches)
  {
    assert es[..k + 1][..k] == es[..k];
  }

  // ---------------------------------------------------------------- once per slot

  /** Ticks come in time order. */
  ghost predicate InOrder(es: seq<Event>) {
    forall i, j :: 0 <= i < j < |es| && es[i].Tick? && es[j].Tick? ==> es[i].second <= es[j].second
  }

  /** Event k of the run attempts this slot. */
  ghost predicate Tries(s: State, es: seq<Event>, k: nat, slot: Minute, matches: Matching)
    requires k < |es|
  {
    Attempts(Run(s, es[..k], matches), es[k], matches) == Some(slot)
  }

  /** And its git sync succeeds. */
  ghost predicate Succeeds(s: State, es: seq<Event>, k: nat, slot: Minute, matches: Matching)
    requires k < |es|
  {
    Tries(s, es, k, slot, matches) && es[k].outcome.Pulls?
  }

  /** Later ticks are due no earlier slot. */
  lemma DueIsMonotone(matches: Matching, first: int, second: int)
    requires first <= second && Due(matches, first).Some? && Due(matches, second).Some?
    ensures Due(matches, first).value <= Due(matches, second).value
  {
  }

  /** After a success the stored slot is one due at a tick since, no earlier than the
      one that succeeded. */
  lemma {:induction false} StoredSince(s: State, es: seq<Event>, i: nat, j: nat, slot: Minute, matches: Matching)
    requires InOrder(es) && i < j <= |es| && Succeeds(s, es, i, slot, matches)
    ensures var last := Run(s, es[..j], matches).lastSlot;
            last.Some? && slot <= last.value
            && exists k :: i <= k < j && es[k].Tick? && Due(matches, es[k].second) == last
    decreases j
  {
    hide Run, Due, Step, Attempts, InOrder;
    var before, e := Run(s, es[..j - 1], matches), es[j - 1];
    RunStep(s, es, j - 1, matches);
    StepStores(before, e, matches);
    if j - 1 > i {
      StoredSince(s, es, i, j - 1, slot, matches);
      var k :| i <= k < j - 1 && es[k].Tick? && Due(matches, es[k].second) == before.lastSlot;
      if e.Tick? && Attempts(before, e, matches).Some? && e.outcome.Pulls? {
        TicksInOrder(es, k, j - 1);
        DueIsMonotone(matches, es[k].second, e.second);
        assert Due(matches, es[j - 1].second) == Step(before, e, matches).lastSlot;
      }
    } else {
      assert Due(matches, es[i].second) == Some(slot);
    }
  }

  lemma StepStores(s: State, e: Event, matches: Matching)
    ensures Step(s, e, matches).lastSlot
         == if Attempts(s, e, matches).Some? && e.outcome.Pulls? then Attempts(s, e, matches) else s.lastSlot
    ensures Attempts(s, e, matches).Some? ==>
              e.Tick? && Attempts(s, e, matches) == Due(matches, e.second) && s.lastSlot != Due(matches, e.second)
  {
  }

  lemma TicksInOrder(es: seq<Event>, i: nat, j: nat)
    requires InOrder(es) && i < j < |es| && es[i].Tick? && es[j].Tick?
    ensures es[i].second <= es[j].second
  {
  }

  /** Slots succeed in strictly increasing order over any run of ticks in time order,
      however manual syncs and failures are mixed in; so none succeeds twice. */
  lemma SuccessesIncrease(s: State, es: seq<Event>, i: nat, j: nat, first: Minute, second: Minute, matches: Matching)
    requires InOrder(es) && i < j < |es|
    requires Succeeds(s, es, i, first, matches) && Succeeds(s, es, j, second, matches)
    ensures first < second
  {
    hide Run, Due;
    StoredSince(s, es, i, j, first, matches);
    var last := Run(s, es[..j], matches).lastSlot;
    var k :| i <= k < j && es[k].Tick? && Due(matches, es[k].second) == last;
    DueIsMonotone(matches, es[k].second, es[j].second);
  }

  /** The stored slot is the one a run began with, or one that succeeded in it. */
  lemma {:induction false} StoredSlotSucceeded(s: State, es: seq<Event>, k: nat, matches: Matching)
    requires k <= |es|
    ensures var last := Run(s, es[..k], matches).lastSlot;
            last == s.lastSlot || (last.Some? && exists i :: 0 <= i < k && Succeeds(s, es, i, last.value, matches))
    decreases k
  {
    if k == 0 {
      assert es[..0] == [];
    } else {
      RunStep(s, es, k - 1, matches);
      StoredSlotSucceeded(s, es, k - 1, matches);
      var before, last := Run(s, es[..k - 1], matches).lastSlot, Run(s, es[..k], matches).lastSlot;
      if last != before {
        assert Succeeds(s, es, k - 1, last.value, matches);
      } else if last != s.lastSlot {
        var i :| 0 <= i < k - 1 && Succeeds(s, es, i, before.value, matches);
      }
    }
  }

  /** A matching minute is attempted by a tick that falls in it, or in the next minute
      if that one does not match, unless it already succeeded: in this run, or as the
      slot stored before it. */
  lemma EveryMatchIsTried(s: State, es: seq<Event>, k: nat, m: Minute, matches: Matching)
    requires k < |es| && es[k].Tick? && matches(m)
    requires 60 * m <= es[k].second < 60 * m + 60 || (!matches(m + 1) && 60 * m + 60 <= es[k].second < 60 * m + 120)
    ensures || Tries(s, es, k, m, matches)
            || s.lastSlot == Some(m)
            || exists i :: 0 <= i < k && Succeeds(s, es, i, m, matches)
  {
    StoredSlotSucceeded(s, es, k, matches);
  }

  /** What is attempted matches, and is the minute of its tick or the one before. */
  lemma OnlyMatchesAreTried(s: State, es: seq<Event>, k: nat, slot: Minute, matches: Matching)
    requires k < |es| && Tries(s, es, k, slot, matches)
    ensures es[k].Tick? && matches(slot)
    ensures || 60 * slot <= es[k].second < 60 * slot + 60
            || (!matches(slot + 1) && 60 * slot + 60 <= es[k].second < 60 * slot + 120)
  {
    hide Run;
  }

  /** A slot whose sync failed is tried again by a tick in the next minute, when that
      minute does not match itself and only manual or failed syncs came between. */
  lemma {:induction false} FailedSlotIsRetried(s: State, es: seq<Event>, i: nat, j: nat, slot: Minute,
      matches: Matching)
    requires i < j < |es| && Tries(s, es, i, slot, matches)
    requires forall k :: i <= k < j ==> es[k].Manual? || es[k].outcome.GitFails?
    requires es[j].Tick? && 60 * slot + 60 <= es[j].second < 60 * slot + 120 && !matches(slot + 1)
    ensures Tries(s, es, j, slot, matches)
  {
    SlotUnmoved(s, es, i, j, matches);
  }

  lemma {:induction false} SlotUnmoved(s: State, es: seq<Event>, i: nat, j: nat, matches: Matching)
    requires i <= j <= |es|
    requires forall k :: i <= k < j ==> es[k].Manual? || es[k].outcome.GitFails?
    ensures Run(s, es[..j], matches).lastSlot == Run(s, es[..i], matches).lastSlot
    decreases j
  {
    if i < j {
      SlotUnmoved(s, es, i, j - 1, matches);
      RunStep(s, es, j - 1, matches);
    }
  }

  // ----------------------------------------------------------------- refresh retries

  /** What one sync leaves behind. A git sync that fails moves no slot; one that succeeds
      stores the slot it was made for and warns exactly when a refresh was due, for a
      change or after a warning, and failed. */
  lemma SyncMeans(s: State, e: Event, matches: Matching)
    requires Syncs(s, e, matches)
    ensures var t := Step(s, e, matches);
            match e.outcome
            case GitFails => t == State(Failed, s.lastSlot, s.stale)
            case Pulls(changed, works) =>
              var due := changed || s.lastStatus == Warning;
              && t.lastStatus == (if due && !works then Warning else Success)
              && t.stale == (if due then !works else s.stale)
              && t.lastSlot == if e.Manual? then s.lastSlot else Attempts(s, e, matches)
    ensures forall f :: !Syncs(s, f, matches) ==> Step(s, f, matches) == s
  {
  }

  /** The status tells whether the fileserver is behind. */
  predicate Honest(s: State) {
    s.stale <==> s.lastStatus.Warning?
  }

  /** Without failed git syncs, a warning stands exactly while the fileserver is behind
      what was pulled, over any run. */
  lemma {:induction false} WarningMeansStale(s: State, es: seq<Event>, matches: Matching)
    requires Honest(s) && forall k :: 0 <= k < |es| ==> es[k].outcome.Pulls?
    ensures Honest(Run(s, es, matches))
    decreases es
  {
    if es != [] {
      var front := es[..|es| - 1];
      forall k | 0 <= k < |front| ensures front[k].outcome.Pulls? { assert front[k] == es[k]; }
      WarningMeansStale(s, front, matches);
    }
  }

  /** The event syncs: a tick with a slot to attempt, or a manual sync. */
  predicate Syncs(s: State, e: Event, matches: Matching) {
    e.Manual? || Attempts(s, e, matches).Some?
  }

  ghost predicate SyncsAt(s: State, es: seq<Event>, k: nat, matches: Matching)
    requires k < |es|
  {
    Syncs(Run(s, es[..k], matches), es[k], matches)
  }

  /** No git sync succeeds in the run. */
  ghost predicate OnlyFails(s: State, es: seq<Event>, matches: Matching) {
    forall k :: 0 <= k < |es| && SyncsAt(s, es, k, matches) ==> es[k].outcome.GitFails?
  }

  ghost predicate Quiet(s: State, es: seq<Event>, matches: Matching) {
    forall k :: 0 <= k < |es| ==> !SyncsAt(s, es, k, matches)
  }

  lemma SyncsAtFront(s: State, es: seq<Event>, k: nat, matches: Matching)
    requires es != [] && k < |es| - 1
    ensures SyncsAt(s, es[..|es| - 1], k, matches) <==> SyncsAt(s, es, k, matches)
  {
    assert es[..|es| - 1][..k] == es[..k];
  }

  lemma StatusAfter(s: State, e: Event, matches: Matching)
    requires Syncs(s, e, matches) ==> e.outcome.GitFails?
    ensures Step(s, e, matches).lastStatus == if Syncs(s, e, matches) then Failed else s.lastStatus
  {
  }

  /** Over any run in which no git sync succeeds, a warning stays exactly when no sync
      is made at all. */
  lemma {:induction false} WarningSurvives(s: State, es: seq<Event>, matches: Matching)
    requires s.lastStatus.Warning? && OnlyFails(s, es, matches)
    ensures Run(s, es, matches).lastStatus.Warning? <==> Quiet(s, es, matches)
    decreases es
  {
    hide Step, Syncs;
    if es != [] {
      var n := |es| - 1;
      var front := es[..n];
      forall k | 0 <= k < n ensures SyncsAt(s, front, k, matches) <==> SyncsAt(s, es, k, matches) {
        SyncsAtFront(s, es, k, matches);
      }
      hide SyncsAt;
      forall k | 0 <= k < n && SyncsAt(s, front, k, matches)
        ensures front[k].outcome.GitFails?
      {
        assert front[k] == es[k];
      }
      WarningSurvives(s, front, matches);
      LastStep(s, es, matches);
      StatusAfter(Run(s, front, matches), es[n], matches);
    }
  }

  lemma LastStep(s: State, es: seq<Event>, matches: Matching)
    requires es != [] && OnlyFails(s, es, matches)
    ensures var front, e := es[..|es| - 1], es[|es| - 1];
            && Run(s, es, matches) == Step(Run(s, front, matches), e, matches)
            && (SyncsAt(s, es, |es| - 1, matches) <==> Syncs(Run(s, front, matches), e, matches))
            && (Syncs(Run(s, front, matches), e, matches) ==> e.outcome.GitFails?)
  {
    assert SyncsAt(s, es, |es| - 1, matches) ==> es[|es| - 1].outcome.GitFails?;
  }

  /** After a failed refresh, the next git sync to succeed asks for a refresh exactly
      when it changed something or no sync, which would have failed, was made in
      between. */
  lemma RetryExactly(s: State, es: seq<Event>, changed: bool, matches: Matching)
    requires s.lastStatus.Warning? && OnlyFails(s, es, matches)
    ensures Refreshes(Run(s, es, matches), changed) <==> changed || Quiet(s, es, matches)
  {
    WarningSurvives(s, es, matches);
  }

  /** A git sync that succeeds leaves the status telling the truth exactly when it
      refreshed or there was nothing to refresh. */
  lemma SyncIsHonest(s: State, changed: bool, refreshWorks: bool, slot: Option<Minute>)
    ensures Honest(Synced(s, Pulls(changed, refreshWorks), slot)) <==> changed || s.lastStatus.Warning? || !s.stale
  {
  }

  /** One failed git sync between a failed refresh and the next sync loses the retry:
      the fileserver stays behind under a reported success. */
  lemma RetryIsLost(s: State, matches: Matching)
    ensures var es := [Manual(Pulls(true, false)), Manual(GitFails), Manual(Pulls(false, true))];
            Run(s, es, matches).lastStatus.Success? && Run(s, es, matches).stale
  {
    var es := [Manual(Pulls(true, false)), Manual(GitFails), Manual(Pulls(false, true))];
    RunStep(s, es, 0, matches);
    RunStep(s, es, 1, matches);
    RunStep(s, es, 2, matches);
    assert es[..0] == [] && es[..3] == es;
  }

  // ------------------------------------------------------------------------- methods

  class FileSync {
    var lastRun: Option<int>
    var lastStatus: Status
    var lastSlot: Option<Minute>
    ghost var stale: bool

    ghost function Model(): State
      reads this
    {
      State(lastStatus, lastSlot, stale)
    }

    constructor ()
      ensures Model() == State(NeverRun, None, false) && lastRun == None
    {
      lastRun, lastStatus, lastSlot, stale := None, NeverRun, None, false;
    }

    /** _save_status */
    method SaveStatus(now: int, status: Status, slot: Option<Minute>)
      modifies this
      ensures lastRun == Some(now) && lastStatus == status && stale == old(stale)
      ensures lastSlot == if slot.Some? then slot else old(lastSlot)
    {
      lastRun, lastStatus := Some(now), status;
      if slot.Some? { lastSlot := slot; }
    }

    /** _sync_now */
    method SyncNow(now: int, outcome: Outcome, slot: Option<Minute>) returns (ok: bool)
      modifies this
      ensures Model() == Synced(old(Model()), outcome, slot) && lastRun == Some(now)
      ensures ok == outcome.Pulls?
    {
      var previous := lastStatus;
      if outcome.GitFails? {
        SaveStatus(now, Failed, None);
        return false;
      }
      var retry := previous.Warning?;
      var refreshFailed := false;
      stale := stale || outcome.changed;
      if outcome.changed || retry {
        refreshFailed := !outcome.refreshWorks;
        stale := refreshFailed;
      }
      SaveStatus(now, if refreshFailed then Warning else Success, slot);
      ok := true;
    }

    /** run_scheduled_sync */
    method RunScheduledSync(now: int, matches: Matching, outcome: Outcome) returns (ran: bool, ok: bool)
      modifies this
      ensures Model() == Step(old(Model()), Tick(now, outcome), matches)
      ensures ran <==> Attempts(old(Model()), Tick(now, outcome), matches).Some?
      ensures ok <==> !ran || outcome.Pulls?
      ensures lastRun == if ran then Some(now) else old(lastRun)
    {
      var slot := Due(matches, now);
      if slot.None? { return false, true; }
      if lastSlot == slot { return false, true; }
      ok := SyncNow(now, outcome, slot);
      ran := true;
    }

    /** run_manual_sync */
    method RunManualSync(now: int, outcome: Outcome) returns (ok: bool)
      modifies this
      ensures Model() == Step(old(Model()), Manual(outcome), _ => false)
      ensures ok == outcome.Pulls? && lastSlot == old(lastSlot) && lastRun == Some(now)
    {
      ok := SyncNow(now, outcome, None);
    }
  }
}
