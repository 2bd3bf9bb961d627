/** Gated wave batches: splitting a roster into waves, and the loop that publishes
    them one by one behind a cancel flag, a scope re-check and a failure gate. */
module WaveBatch {
  import opened Sequences
  import opened Text

  type Id = string

  // ------------------------------------------------------------------------ splitting

  datatype Mode = Count | Percent

  /** The wave size split_roster settles on; -(-a // 100) is the ceiling. */
  function WaveSize(n: nat, mode: Mode, size: int): (k: int)
    ensures k >= 1
  {
    var s := if mode.Percent? then Max(1, -((-(n * size)) / 100)) else size;
    Max(1, s)
  }

  function Max(a: int, b: int): int {
    if a > b then a else b
  }

  /** [roster[i : i + k] for i in range(0, len(roster), k)] */
  function Slices<T>(roster: seq<T>, k: int): seq<seq<T>>
    requires k >= 1
  {
    if |roster| == 0 then []
    else if |roster| <= k then [roster]
    else [roster[..k]] + Slices(roster[k..], k)
  }

  function SplitRoster<T>(roster: seq<T>, mode: Mode, size: int): seq<seq<T>> {
    Slices(roster, WaveSize(|roster|, mode, size))
  }

  function Concat<T>(waves: seq<seq<T>>): seq<T> {
    if waves == [] then [] else waves[0] + Concat(waves[1..])
  }

  lemma {:induction false} SlicesPartition<T>(roster: seq<T>, k: int)
    requires k >= 1
    ensures var waves := Slices(roster, k);
            && Concat(waves) == roster
            && (forall i :: 0 <= i < |waves| ==> 1 <= |waves[i]| <= k)
            && (forall i :: 0 <= i < |waves| - 1 ==> |waves[i]| == k)
  {
    var waves := Slices(roster, k);
    if |roster| == 0 {
    } else if |roster| <= k {
      assert waves[1..] == [];
      EmptyAppends(roster);
    } else {
      var rest := Slices(roster[k..], k);
      SlicesPartition(roster[k..], k);
      HeadTail(roster[..k], rest);
      Splits(roster, k, k);
      forall i | 0 < i < |waves| ensures waves[i] == rest[i - 1] {}
    }
  }

  lemma {:induction false} SlicesCount<T>(roster: seq<T>, k: int)
    requires k >= 1
    ensures |roster| > 0 ==> (|Slices(roster, k)| - 1) * k < |roster|
    ensures |roster| == 0 <==> Slices(roster, k) == []
  {
    if |roster| > k {
      SlicesCount(roster[k..], k);
      var n := |Slices(roster[k..], k)|;
      assert |Slices(roster, k)| == n + 1;
      assert n * k == (n - 1) * k + k;
    }
  }

  /** The waves are the roster, in order, cut into nonempty pieces. In count mode they
      have the size asked for, in percent mode the smallest that makes up the share of
      the roster, one at the least; only the last may be smaller. */
  lemma SplitIsPartition<T>(roster: seq<T>, mode: Mode, size: int)
    ensures var waves, n := SplitRoster(roster, mode, size), |roster|;
            && Concat(waves) == roster
            && forall i :: 0 <= i < |waves| ==>
                 var w := |waves[i]|;
                 && w >= 1
                 && (mode == Count ==> w == 1 || w <= size)
                 && (mode == Percent ==> w == 1 || 100 * (w - 1) < n * size)
                 && (i < |waves| - 1 ==> if mode == Count then w >= size else 100 * w >= n * size)
  {
    SlicesPartition(roster, WaveSize(|roster|, mode, size));
    var share := |roster| * size;
    assert -((-share) / 100) * 100 >= share && (-((-share) / 100) - 1) * 100 < share;
  }

  lemma Scale(a: int, b: int, k: int)
    requires a <= b && k >= 0
    ensures a * k <= b * k
  {
  }

  /** In percent mode the number of waves is at most ceil(100 / p), however long the
      roster. */
  lemma PercentWaves<T>(roster: seq<T>, p: int)
    requires p >= 1
    ensures |SplitRoster(roster, Percent, p)| <= -((-100) / p)
  {
    var n, waves := |roster|, |SplitRoster(roster, Percent, p)|;
    var k := WaveSize(n, Percent, p);
    SlicesCount(roster, k);
    if waves > 0 {
      assert n * p <= 100 * k;
      Scale((waves - 1) * k + 1, n, p);
      assert ((waves - 1) * k + 1) * p == ((waves - 1) * k) * p + p;
      Swap(waves - 1, k, p);
      if (waves - 1) * p >= 100 { Scale(100, (waves - 1) * p, k); }
      CeilingBound(waves, p);
    }
  }

  lemma Swap(a: int, b: int, c: int)
    ensures (a * b) * c == (a * c) * b
  {
  }

  lemma CeilingBound(waves: int, p: int)
    requires p >= 1 && (waves - 1) * p < 100
    ensures waves <= -((-100) / p)
  {
    var q := -((-100) / p);
    assert q * p >= 100;
    if waves > q { Scale(q, waves - 1, p); }
  }

  // -------------------------------------------------------------------- one wave's run

  /** Everything the outside decides about one wave. allowed and batchAllowed are the
      defining user's minion sets when the wave comes up (empty for a deleted user);
      rows are the returns recorded by the deadline, id to success. */
  datatype WaveEnv = WaveEnv(
    cancelled: bool, scoped: bool, allowed: set<Id>, fleetBatch: bool, batchAllowed: set<Id>,
    publishes: bool, rows: map<Id, bool>)

  datatype Status = Running | Complete | Stopped | Cancelled

  /** One publish attempt, with the failure count it started from. */
  datatype Attempt = Attempt(num: nat, targets: seq<Id>, published: bool, before: nat, rows: map<Id, bool>)

  function Kept(targets: seq<Id>, allowed: set<Id>): seq<Id> {
    if targets == [] then []
    else (if targets[0] in allowed then [targets[0]] else []) + Kept(targets[1..], allowed)
  }

  /** What a wave comes to before publishing. */
  datatype Plan = Halt(status: Status) | Skip | Publish(targets: seq<Id>)

  function PlanWave(wave: seq<Id>, env: WaveEnv): Plan {
    if env.cancelled then Halt(Cancelled)
    else
      var targets := SortedList(wave);
      if !env.scoped then Publish(targets)
      else if env.allowed == {} then Halt(Stopped)
      else if Kept(targets, env.allowed) == [] then Skip
      else if !env.fleetBatch && (env.batchAllowed == {} || exists m :: m in targets && m !in env.batchAllowed)
      then Halt(Stopped)
      else Publish(Kept(targets, env.allowed))
  }

  /** The job returns under the wave's own jid: only its targets report there. */
  function RowsOf(targets: seq<Id>, env: WaveEnv): map<Id, bool> {
    map m | m in env.rows && m in targets :: env.rows[m]
  }

  function FailedRows(rows: map<Id, bool>): set<Id> {
    set m | m in rows && !rows[m]
  }

  function Missing(a: Attempt): nat {
    if !a.published then 0 else Max(0, |a.targets| - |a.rows|)
  }

  /** What an attempt adds to the failure count. */
  function Failures(a: Attempt): nat {
    if !a.published then |a.targets| else |FailedRows(a.rows)| + Missing(a)
  }

  datatype Batch = Batch(failures: nat, missing: nat, status: Status, attempts: seq<Attempt>)

  function Step(b: Batch, num: nat, wave: seq<Id>, env: WaveEnv, stopAfter: int): Batch {
    if b.status != Running then b
    else match PlanWave(wave, env)
      case Halt(status) => b.(status := status)
      case Skip => b
      case Publish(targets) =>
        var rows := if env.publishes then RowsOf(targets, env) else map[];
        var a := Attempt(num, targets, env.publishes, b.failures, rows);
        var failures := b.failures + Failures(a);
        Batch(failures, b.missing + Missing(a), if failures >= stopAfter then Stopped else Running, b.attempts + [a])
  }

  /** The batch after the first k waves. */
  function After(waves: seq<seq<Id>>, envs: nat -> WaveEnv, stopAfter: int, k: nat): Batch
    requires k <= |waves|
  {
    if k == 0 then Batch(0, 0, Running, [])
    else Step(After(waves, envs, stopAfter, k - 1), k - 1, waves[k - 1], envs(k - 1), stopAfter)
  }

  /** The whole batch: running through to the end means complete. */
  function Result(waves: seq<seq<Id>>, envs: nat -> WaveEnv, stopAfter: int): Batch {
    var b := After(waves, envs, stopAfter, |waves|);
    if b.status == Running then b.(status := Complete) else b
  }

  // ---------------------------------------------------------------------- accounting

  lemma {:induction false} KeptAre(targets: seq<Id>, allowed: set<Id>)
    ensures forall m :: m in Kept(targets, allowed) <==> m in targets && m in allowed
    ensures |Kept(targets, allowed)| <= |targets|
  {
    if targets != [] { KeptAre(targets[1..], allowed); }
  }

  function SetOf(s: seq<Id>): set<Id> {
    set m | m in s
  }

  lemma {:induction false} SetOfSmall(s: seq<Id>)
    ensures |SetOf(s)| <= |s|
  {
    if s != [] {
      SetOfSmall(s[1..]);
      assert SetOf(s) == {s[0]} + SetOf(s[1..]);
    }
  }

  lemma SubsetSize(a: set<Id>, b: set<Id>)
    requires a <= b
    ensures |a| <= |b|
  {
    assert b == a + (b - a);
  }

  /** A wave's failures are its targets that did not come back successful; missing are
      those that did not come back at all. */
  lemma FailuresAre(a: Attempt)
    requires forall m :: m in a.rows ==> m in a.targets
    ensures Failures(a) == if a.published then |a.targets| - |set m | m in a.rows && a.rows[m]| else |a.targets|
    ensures Failures(a) <= |a.targets|
    ensures Missing(a) == if a.published then |a.targets| - |a.rows| else 0
  {
    var good := set m | m in a.rows && a.rows[m];
    assert a.rows.Keys == FailedRows(a.rows) + good && FailedRows(a.rows) !! good;
    assert a.rows.Keys <= SetOf(a.targets);
    SubsetSize(a.rows.Keys, SetOf(a.targets));
    SetOfSmall(a.targets);
  }

  function TotalFailures(attempts: seq<Attempt>): nat {
    if attempts == [] then 0 else TotalFailures(attempts[..|attempts| - 1]) + Failures(attempts[|attempts| - 1])
  }

  function TotalMissing(attempts: seq<Attempt>): nat {
    if attempts == [] then 0 else TotalMissing(attempts[..|attempts| - 1]) + Missing(attempts[|attempts| - 1])
  }

  // ------------------------------------------------------------------------ the gate

  /** The scope re-check of wave k would stop the batch. */
  predicate ScopeLost(wave: seq<Id>, env: WaveEnv) {
    env.scoped && (env.allowed == {} ||
      (Kept(SortedList(wave), env.allowed) != [] && !env.fleetBatch
       && (env.batchAllowed == {} || exists m :: m in wave && m !in env.batchAllowed)))
  }

  /** An attempt is in order: on its wave's own targets, inside that wave's allowed
      set, with rows from its targets. */
  ghost predicate AttemptOk(a: Attempt, waves: seq<seq<Id>>, envs: nat -> WaveEnv) {
    && a.num < |waves|
    && a.published == envs(a.num).publishes
    && (forall m :: m in a.targets <==> m in waves[a.num] && (envs(a.num).scoped ==> m in envs(a.num).allowed))
    && |a.targets| <= |waves[a.num]|
    && (forall m :: m in a.rows <==> a.published && m in a.targets && m in envs(a.num).rows)
    && (forall m :: m in a.rows ==> a.rows[m] == envs(a.num).rows[m])
  }

  /** The count is the sum over the attempts, and every attempt but the first was
      made below the limit. */
  ghost predicate Accounts(b: Batch, stopAfter: int) {
    && b.failures == TotalFailures(b.attempts) && b.missing == TotalMissing(b.attempts)
    && (forall i :: 0 <= i < |b.attempts| ==> b.attempts[i].before == TotalFailures(b.attempts[..i]))
    && (forall i :: 0 < i < |b.attempts| ==> b.attempts[i].before < stopAfter)
    && (b.status == Running ==> b.failures < stopAfter || b.attempts == [])
    && (b.status == Stopped || b.status == Cancelled || b.status == Running)
  }

  ghost predicate InPlace(b: Batch, waves: seq<seq<Id>>, envs: nat -> WaveEnv, k: nat) {
    && (forall i :: 0 <= i < |b.attempts| ==> AttemptOk(b.attempts[i], waves, envs) && b.attempts[i].num < k)
    && (forall i, j :: 0 <= i < j < |b.attempts| ==> b.attempts[i].num < b.attempts[j].num)
  }

  /** None of the first n waves saw a cancel or lost its scope. */
  ghost predicate Open(waves: seq<seq<Id>>, envs: nat -> WaveEnv, n: nat)
    requires n <= |waves|
  {
    forall j :: 0 <= j < n ==> !envs(j).cancelled && !ScopeLost(waves[j], envs(j))
  }

  ghost predicate Unhalted(b: Batch, waves: seq<seq<Id>>, envs: nat -> WaveEnv, k: nat)
    requires k <= |waves|
  {
    && (forall i :: 0 <= i < |b.attempts| ==> b.attempts[i].num < k && Open(waves, envs, b.attempts[i].num + 1))
    && (b.status == Running ==> Open(waves, envs, k))
  }

  lemma PlanMeans(wave: seq<Id>, env: WaveEnv)
    ensures PlanWave(wave, env) == Halt(Cancelled) <==> env.cancelled
    ensures PlanWave(wave, env).Halt? <==> env.cancelled || ScopeLost(wave, env)
    ensures PlanWave(wave, env).Publish? ==>
              && (forall m :: m in PlanWave(wave, env).targets <==> m in wave && (env.scoped ==> m in env.allowed))
              && |PlanWave(wave, env).targets| <= |wave|
    ensures PlanWave(wave, env).Skip? ==> env.scoped && forall m :: m in wave ==> m !in env.allowed
  {
    var targets := SortedList(wave);
    forall m ensures m in targets <==> m in wave {
      assert m in multiset(targets) <==> m in multiset(wave);
    }
    KeptAre(targets, env.allowed);
  }

  /** When a wave loses its scope: the user may run the function nowhere any more, or
      holds no fleet grant of batches and, with some member still in scope, may batch
      nowhere or not on every member. */
  lemma LostMeans(wave: seq<Id>, env: WaveEnv)
    ensures ScopeLost(wave, env) <==>
              env.scoped && (|| env.allowed == {}
                             || (&& !env.fleetBatch && (exists m :: m in wave && m in env.allowed)
                                 && (env.batchAllowed == {} || exists m :: m in wave && m !in env.batchAllowed)))
  {
    var targets := SortedList(wave);
    forall m ensures m in targets <==> m in wave {
      assert m in multiset(targets) <==> m in multiset(wave);
    }
    KeptAre(targets, env.allowed);
    if m :| m in wave && m in env.allowed {
      assert m in Kept(targets, env.allowed);
    } else if Kept(targets, env.allowed) != [] {
      assert Kept(targets, env.allowed)[0] in Kept(targets, env.allowed);
    }
    hide Kept, SortedList;
  }

  lemma TotalsSnoc(attempts: seq<Attempt>, a: Attempt)
    ensures TotalFailures(attempts + [a]) == TotalFailures(attempts) + Failures(a)
    ensures TotalMissing(attempts + [a]) == TotalMissing(attempts) + Missing(a)
  {
    assert (attempts + [a])[..|attempts|] == attempts;
  }

  lemma StepAccounts(b: Batch, num: nat, wave: seq<Id>, env: WaveEnv, stopAfter: int)
    requires Accounts(b, stopAfter)
    ensures Accounts(Step(b, num, wave, env, stopAfter), stopAfter)
  {
    hide PlanWave, RowsOf, Failures, Missing, TotalFailures, TotalMissing;
    var t := Step(b, num, wave, env, stopAfter);
    HaltsAre(wave, env);
    if b.status == Running && PlanWave(wave, env).Publish? {
      var n := |b.attempts|;
      var a := t.attempts[n];
      TotalsSnoc(b.attempts, a);
      forall i | 0 <= i < |t.attempts| ensures t.attempts[i].before == TotalFailures(t.attempts[..i]) {
        SliceOfPrefix(b.attempts, [a], 0, i);
        EmptyAppends(b.attempts);
        if i == n { Splits(b.attempts, n, n); }
      }
    }
  }

  lemma HaltsAre(wave: seq<Id>, env: WaveEnv)
    ensures PlanWave(wave, env).Halt? ==> PlanWave(wave, env).status in {Cancelled, Stopped}
  {
  }

  lemma StepInPlace(b: Batch, waves: seq<seq<Id>>, envs: nat -> WaveEnv, stopAfter: int, k: nat)
    requires k < |waves| && InPlace(b, waves, envs, k)
    ensures InPlace(Step(b, k, waves[k], envs(k), stopAfter), waves, envs, k + 1)
  {
    hide PlanWave, Failures, Missing;
    PlanMeans(waves[k], envs(k));
  }

  lemma StepUnhalted(b: Batch, waves: seq<seq<Id>>, envs: nat -> WaveEnv, stopAfter: int, k: nat)
    requires k < |waves| && Unhalted(b, waves, envs, k)
    ensures Unhalted(Step(b, k, waves[k], envs(k), stopAfter), waves, envs, k + 1)
  {
    hide PlanWave, Failures, Missing, RowsOf, ScopeLost;
    PlanMeans(waves[k], envs(k));
    HaltsAre(waves[k], envs(k));
    if b.status == Running && !PlanWave(waves[k], envs(k)).Halt? {
      assert Open(waves, envs, k + 1);
      var t := Step(b, k, waves[k], envs(k), stopAfter);
      forall i | 0 <= i < |t.attempts| ensures t.attempts[i].num < k + 1 && Open(waves, envs, t.attempts[i].num + 1) {
        if i < |b.attempts| { assert t.attempts[i] == b.attempts[i]; } else { assert t.attempts[i].num == k; }
      }
    }
  }

  lemma {:induction false} AfterKeeps(waves: seq<seq<Id>>, envs: nat -> WaveEnv, stopAfter: int, k: nat)
    requires k <= |waves|
    ensures var b := After(waves, envs, stopAfter, k);
            Accounts(b, stopAfter) && InPlace(b, waves, envs, k) && Unhalted(b, waves, envs, k)
  {
    hide Step, Accounts, InPlace, Unhalted;
    if k == 0 {
      Starts(waves, envs, stopAfter);
    } else {
      AfterKeeps(waves, envs, stopAfter, k - 1);
      var b := After(waves, envs, stopAfter, k - 1);
      StepAccounts(b, k - 1, waves[k - 1], envs(k - 1), stopAfter);
      StepInPlace(b, waves, envs, stopAfter, k - 1);
      StepUnhalted(b, waves, envs, stopAfter, k - 1);
    }
  }

  lemma Starts(waves: seq<seq<Id>>, envs: nat -> WaveEnv, stopAfter: int)
    ensures var b := Batch(0, 0, Running, []);
            Accounts(b, stopAfter) && InPlace(b, waves, envs, 0) && Unhalted(b, waves, envs, 0)
  {
  }

  /** Nothing is published once failures have reached the limit, nor at or after a
      wave that saw a cancel or lost its scope. The first attempt has no failures
      behind it, whatever the limit: see GateHoldsExactly. */
  lemma NothingPastTheGate(waves: seq<seq<Id>>, envs: nat -> WaveEnv, stopAfter: int, i: nat)
    requires i < |Result(waves, envs, stopAfter).attempts|
    ensures var tries := Result(waves, envs, stopAfter).attempts;
            && (i > 0 ==> TotalFailures(tries[..i]) < stopAfter)
            && tries[i].num < |waves|
            && forall j :: 0 <= j <= tries[i].num ==> !envs(j).cancelled && !ScopeLost(waves[j], envs(j))
  {
    hide After, ScopeLost;
    AfterKeeps(waves, envs, stopAfter, |waves|);
  }

  /** Every attempt is made below the limit, the first included, exactly for limits of
      at least one, which are the only ones a batch form lets through, or when nothing
      is attempted. */
  lemma GateHoldsExactly(waves: seq<seq<Id>>, envs: nat -> WaveEnv, stopAfter: int)
    ensures var tries := Result(waves, envs, stopAfter).attempts;
            (forall i :: 0 <= i < |tries| ==> TotalFailures(tries[..i]) < stopAfter) <==> stopAfter >= 1 || tries == []
  {
    var tries := Result(waves, envs, stopAfter).attempts;
    hide Result;
    assert tries[..0] == [] && TotalFailures([]) == 0;
    if stopAfter >= 1 {
      forall i | 0 <= i < |tries| ensures TotalFailures(tries[..i]) < stopAfter {
        if i > 0 { NothingPastTheGate(waves, envs, stopAfter, i); }
      }
    } else if tries != [] {
      assert TotalFailures(tries[..0]) >= stopAfter;
    }
  }

  /** A limit of zero does not stop the first wave. */
  lemma ZeroLimitTriesOnce(m: Id, env: WaveEnv)
    requires !env.cancelled && !env.scoped
    ensures |Result([[m]], _ => env, 0).attempts| == 1
  {
    var b := Batch(0, 0, Running, []);
    assert After([[m]], _ => env, 0, 0) == b;
    PlanMeans([m], env);
    assert m in [m];
    var one := Step(b, 0, [m], env, 0);
    assert |one.attempts| == 1;
    assert After([[m]], _ => env, 0, 1) == one;
  }

  /** Every attempt is made once per wave, in wave order, at exactly the wave's members
      that are then in the user's allowed set (all of them in legacy mode); its rows are
      what came back of those, if it could be published. */
  lemma PublishedInsideScope(waves: seq<seq<Id>>, envs: nat -> WaveEnv, stopAfter: int, i: nat)
    requires i < |Result(waves, envs, stopAfter).attempts|
    ensures var tries := Result(waves, envs, stopAfter).attempts;
            && tries[i].num < |waves|
            && (forall m :: m in tries[i].targets <==>
                  m in waves[tries[i].num] && (envs(tries[i].num).scoped ==> m in envs(tries[i].num).allowed))
            && (i + 1 < |tries| ==> tries[i].num < tries[i + 1].num)
            && tries[i].published == envs(tries[i].num).publishes
            && forall m :: if tries[i].published && m in tries[i].targets && m in envs(tries[i].num).rows
                 then m in tries[i].rows && tries[i].rows[m] == envs(tries[i].num).rows[m] else m !in tries[i].rows
  {
    hide After;
    AfterKeeps(waves, envs, stopAfter, |waves|);
  }

  /** The final count is, over all attempts, the targets that did not come back
      successful: all of a wave that could not be published, the failed and the silent
      ones of a wave that was. */
  lemma FailuresAddUp(waves: seq<seq<Id>>, envs: nat -> WaveEnv, stopAfter: int)
    ensures var r := Result(waves, envs, stopAfter);
            && r.failures == TotalFailures(r.attempts) && r.missing == TotalMissing(r.attempts)
            && forall i :: 0 <= i < |r.attempts| ==>
                 var a := r.attempts[i];
                 && (Failures(a)
                     == if a.published then |a.targets| - |set m | m in a.rows && a.rows[m]| else |a.targets|)
                 && (Missing(a) == if a.published then |a.targets| - |a.rows| else 0)
  {
    hide After;
    AfterKeeps(waves, envs, stopAfter, |waves|);
    var r := Result(waves, envs, stopAfter);
    forall i | 0 <= i < |r.attempts|
      ensures var a := r.attempts[i];
              && (Failures(a) == if a.published then |a.targets| - |set m | m in a.rows && a.rows[m]| else |a.targets|)
              && (Missing(a) == if a.published then |a.targets| - |a.rows| else 0)
    {
      assert AttemptOk(r.attempts[i], waves, envs);
      FailuresAre(r.attempts[i]);
    }
  }

  /** The damage is bounded: one wave's size past the limit, less one. */
  lemma FailuresAreBounded(waves: seq<seq<Id>>, envs: nat -> WaveEnv, stopAfter: int, n: nat)
    requires forall k :: 0 <= k < |waves| ==> |waves[k]| <= n
    ensures Result(waves, envs, stopAfter).failures <= (if stopAfter > 1 then stopAfter - 1 else 0) + n
  {
    hide After, Failures, TotalMissing;
    AfterKeeps(waves, envs, stopAfter, |waves|);
    var r := Result(waves, envs, stopAfter);
    if r.attempts != [] {
      var n := |r.attempts| - 1;
      var a := r.attempts[n];
      assert AttemptOk(a, waves, envs);
      FailuresAre(a);
    }
  }

  /** The first k waves account for how the batch stands. */
  ghost predicate Explained(b: Batch, waves: seq<seq<Id>>, envs: nat -> WaveEnv, stopAfter: int, k: nat)
    requires k <= |waves|
  {
    && b.status != Complete
    && (b.status == Cancelled ==> exists j :: 0 <= j < k && envs(j).cancelled && Open(waves, envs, j))
    && (b.status == Stopped ==>
          || (b.failures >= stopAfter && b.attempts != [])
          || exists j :: 0 <= j < k && !envs(j).cancelled && ScopeLost(waves[j], envs(j)) && Open(waves, envs, j))
  }

  lemma StepExplained(b: Batch, waves: seq<seq<Id>>, envs: nat -> WaveEnv, stopAfter: int, k: nat)
    requires k < |waves| && Explained(b, waves, envs, stopAfter, k) && Unhalted(b, waves, envs, k)
    ensures Explained(Step(b, k, waves[k], envs(k), stopAfter), waves, envs, stopAfter, k + 1)
  {
    hide PlanWave, Failures, Missing, RowsOf, ScopeLost, Open;
    PlanMeans(waves[k], envs(k));
    HaltsAre(waves[k], envs(k));
  }

  lemma StartsExplained(waves: seq<seq<Id>>, envs: nat -> WaveEnv, stopAfter: int)
    ensures Explained(Batch(0, 0, Running, []), waves, envs, stopAfter, 0)
  {
  }

  lemma {:induction false} AfterExplained(waves: seq<seq<Id>>, envs: nat -> WaveEnv, stopAfter: int, k: nat)
    requires k <= |waves|
    ensures Explained(After(waves, envs, stopAfter, k), waves, envs, stopAfter, k)
  {
    hide Step, Explained, Unhalted;
    if k == 0 {
      StartsExplained(waves, envs, stopAfter);
    } else {
      AfterExplained(waves, envs, stopAfter, k - 1);
      AfterKeeps(waves, envs, stopAfter, k - 1);
      StepExplained(After(waves, envs, stopAfter, k - 1), waves, envs, stopAfter, k - 1);
    }
  }

  /** A batch ends cancelled only by a wave that saw the flag, and stopped only by
      failures at the limit or a wave that lost its scope, each the first to halt it. */
  lemma WhyItEnded(waves: seq<seq<Id>>, envs: nat -> WaveEnv, stopAfter: int)
    ensures var r := Result(waves, envs, stopAfter);
            && r.status != Running
            && (r.status == Cancelled ==>
                  exists j :: 0 <= j < |waves| && envs(j).cancelled && Open(waves, envs, j))
            && (r.status == Stopped ==>
                  || (r.failures >= stopAfter && r.attempts != [])
                  || exists j :: 0 <= j < |waves| && !envs(j).cancelled && ScopeLost(waves[j], envs(j))
                                 && Open(waves, envs, j))
  {
    hide After, Open, ScopeLost;
    AfterExplained(waves, envs, stopAfter, |waves|);
  }

  /** A batch reported complete stayed below its limit, halted nowhere, and tried every
      wave that had a member in scope. */
  lemma CompleteMeans(waves: seq<seq<Id>>, envs: nat -> WaveEnv, stopAfter: int)
    requires Result(waves, envs, stopAfter).status == Complete
    ensures var r := Result(waves, envs, stopAfter);
            && (r.failures < stopAfter || r.attempts == [])
            && (forall j :: 0 <= j < |waves| ==> !envs(j).cancelled && !ScopeLost(waves[j], envs(j)))
            && (forall j :: 0 <= j < |waves| && InScope(waves[j], envs(j)) ==> Tried(r.attempts, j))
  {
    hide ScopeLost, After, Tried, InScope;
    AfterKeeps(waves, envs, stopAfter, |waves|);
    forall j | 0 <= j < |waves| && InScope(waves[j], envs(j))
      ensures Tried(Result(waves, envs, stopAfter).attempts, j)
    {
      TriedAll(waves, envs, stopAfter, |waves|, j);
    }
  }

  /** Wave j was tried. */
  ghost predicate Tried(attempts: seq<Attempt>, j: nat) {
    exists i :: 0 <= i < |attempts| && attempts[i].num == j
  }

  ghost predicate InScope(wave: seq<Id>, env: WaveEnv) {
    exists m :: m in wave && (env.scoped ==> m in env.allowed)
  }

  lemma TriedStays(attempts: seq<Attempt>, a: Attempt, j: nat)
    ensures Tried(attempts, j) ==> Tried(attempts + [a], j)
    ensures Tried(attempts + [a], a.num)
  {
    if Tried(attempts, j) {
      var i :| 0 <= i < |attempts| && attempts[i].num == j;
      assert (attempts + [a])[i].num == j;
    }
    assert (attempts + [a])[|attempts|] == a;
  }

  lemma StepTries(b: Batch, num: nat, wave: seq<Id>, env: WaveEnv, stopAfter: int, j: nat)
    requires Step(b, num, wave, env, stopAfter).status == Running
    ensures b.status == Running
    ensures Tried(b.attempts, j) ==> Tried(Step(b, num, wave, env, stopAfter).attempts, j)
    ensures InScope(wave, env) ==> Tried(Step(b, num, wave, env, stopAfter).attempts, num)
  {
    hide PlanWave, Failures, Missing, RowsOf, Tried, ScopeLost;
    PlanMeans(wave, env);
    HaltsAre(wave, env);
    if PlanWave(wave, env).Publish? {
      var t := Step(b, num, wave, env, stopAfter);
      var a := t.attempts[|b.attempts|];
      TriedStays(b.attempts, a, j);
    }
  }

  lemma {:induction false} TriedAll(waves: seq<seq<Id>>, envs: nat -> WaveEnv, stopAfter: int, k: nat, j: nat)
    requires j < k <= |waves|
    requires After(waves, envs, stopAfter, k).status == Running && InScope(waves[j], envs(j))
    ensures Tried(After(waves, envs, stopAfter, k).attempts, j)
  {
    hide Step, Tried, InScope;
    StepTries(After(waves, envs, stopAfter, k - 1), k - 1, waves[k - 1], envs(k - 1), stopAfter, j);
    if j < k - 1 { TriedAll(waves, envs, stopAfter, k - 1, j); }
  }

  // -------------------------------------------------------------------------- the loop

  /** The parent row of a batch: the complete flag and the batch_state document. */
  class Parent {
    var complete: bool
    var failures: nat
    var wavesDone: nat
    var status: Status
    var missing: nat

    constructor ()
      ensures !complete && failures == 0 && wavesDone == 0 && status == Running && missing == 0
    {
      complete, failures, wavesDone, status, missing := false, 0, 0, Running, 0;
    }
  }

  /** waves_done: one past the last wave that was published, if any. */
  function WavesDone(attempts: seq<Attempt>, start: nat): nat {
    if attempts == [] then start
    else
      var last := attempts[|attempts| - 1];
      if last.published then last.num + 1 else WavesDone(attempts[..|attempts| - 1], start)
  }

  /** waves_done numbers the last wave that was published. */
  lemma {:induction false} WavesDoneIs(attempts: seq<Attempt>, start: nat, i: nat)
    requires i < |attempts| && attempts[i].published
    requires forall j :: i < j < |attempts| ==> !attempts[j].published
    ensures WavesDone(attempts, start) == attempts[i].num + 1
  {
    if i < |attempts| - 1 { WavesDoneIs(attempts[..|attempts| - 1], start, i); }
  }

  lemma {:induction false} HaltSticks(waves: seq<seq<Id>>, envs: nat -> WaveEnv, stopAfter: int, k: nat, n: nat)
    requires k <= n <= |waves| && After(waves, envs, stopAfter, k).status != Running
    ensures After(waves, envs, stopAfter, n) == After(waves, envs, stopAfter, k)
  {
    if k < n { HaltSticks(waves, envs, stopAfter, k, n - 1); }
  }

  lemma DoneStep(attempts: seq<Attempt>, a: Attempt, start: nat)
    ensures WavesDone(attempts + [a], start) == if a.published then a.num + 1 else WavesDone(attempts, start)
  {
    assert (attempts + [a])[..|attempts|] == attempts;
  }

  lemma AfterStarts(waves: seq<seq<Id>>, envs: nat -> WaveEnv, stopAfter: int, start: nat)
    ensures After(waves, envs, stopAfter, 0) == Batch(0, 0, Running, [])
    ensures WavesDone([], start) == start
  {
  }

  /** A step from a running batch, case by case. */
  lemma StepCases(b: Batch, num: nat, wave: seq<Id>, env: WaveEnv, stopAfter: int)
    requires b.status == Running
    ensures var t := Step(b, num, wave, env, stopAfter);
            match PlanWave(wave, env)
            case Halt(status) => t == b.(status := status) && status != Running && status != Complete
            case Skip => t == b
            case Publish(targets) =>
              var rows := if env.publishes then RowsOf(targets, env) else map[];
              var a := Attempt(num, targets, env.publishes, b.failures, rows);
              var failures := b.failures + Failures(a);
              var status := if failures >= stopAfter then Stopped else Running;
              t == Batch(failures, b.missing + Missing(a), status, b.attempts + [a])
  {
    HaltsAre(wave, env);
  }

  lemma AfterUnfolds(waves: seq<seq<Id>>, envs: nat -> WaveEnv, stopAfter: int, k: nat)
    requires k < |waves|
    ensures After(waves, envs, stopAfter, k + 1)
         == Step(After(waves, envs, stopAfter, k), k, waves[k], envs(k), stopAfter)
  {
  }

  /** run_wave_batch: the wave loop with its breaks, and the parent row it keeps. */
  method RunWaveBatch(parent: Parent, waves: seq<seq<Id>>, envs: nat -> WaveEnv, stopAfter: int)
    returns (status: Status, failures: nat, ghost attempts: seq<Attempt>)
    modifies parent
    ensures var r := Result(waves, envs, stopAfter);
            status == r.status && failures == r.failures && attempts == r.attempts
            && parent.complete && parent.failures == r.failures && parent.status == r.status
            && parent.missing == r.missing
            && parent.wavesDone == WavesDone(r.attempts, old(parent.wavesDone))
  {
    hide PlanWave, Failures, Missing, RowsOf, After, Step, WavesDone;
    AfterStarts(waves, envs, stopAfter, parent.wavesDone);
    failures, status, attempts := 0, Complete, [];
    var missingTotal: nat := 0;
    var num := 0;
    while num < |waves|
      invariant 0 <= num <= |waves|
      invariant status == Complete
      invariant After(waves, envs, stopAfter, num) == Batch(failures, missingTotal, Running, attempts)
      invariant parent.wavesDone == WavesDone(attempts, old(parent.wavesDone))
    {
      var env := envs(num);
      var plan := PlanWave(waves[num], env);
      AfterUnfolds(waves, envs, stopAfter, num);
      StepCases(After(waves, envs, stopAfter, num), num, waves[num], env, stopAfter);
      if plan.Halt? {
        status := plan.status;
        HaltSticks(waves, envs, stopAfter, num + 1, |waves|);
        break;
      }
      if plan.Publish? {
        var rows := if env.publishes then RowsOf(plan.targets, env) else map[];
        var a := Attempt(num, plan.targets, env.publishes, failures, rows);
        DoneStep(attempts, a, old(parent.wavesDone));
        attempts := attempts + [a];
        missingTotal, failures := missingTotal + Missing(a), failures + Failures(a);
        if a.published {
          parent.failures, parent.wavesDone, parent.status, parent.missing := failures, num + 1, Running, missingTotal;
        }
        if failures >= stopAfter {
          status := Stopped;
          HaltSticks(waves, envs, stopAfter, num + 1, |waves|);
          break;
        }
      }
      num := num + 1;
    }
    parent.complete, parent.failures, parent.status, parent.missing := true, failures, status, missingTotal;
  }
}
