/** From duplicate returner writes to recorded job returns: the shared return table
    where the first writer wins, and the sync that copies it into jobs and decides
    when a job is complete. */
module ReturnPipeline {
  import opened Options

  type Jid = string
  type Id = string

  const COMPLETE_AFTER_SECONDS := 60

  /** One row of the return table; time is when it was stored, if known. */
  datatype SaltRow = SaltRow(success: bool, payload: string, time: Option<int>)

  datatype JobReturn = JobReturn(success: bool, payload: string)

  datatype Job = Job(started: int, complete: bool)

  type Key = (Jid, Id)

  datatype Tables = Tables(rows: map<Key, SaltRow>, jobs: map<Jid, Job>, recorded: map<Key, JobReturn>)

  /** The clock, and the minions the master still associates with the job (None when
      it is silent or has forgotten it). */
  datatype Env = Env(now: int, master: Option<set<Id>>)

  /** A master stores a return (or its database write fails), or somebody syncs a job. */
  datatype Event = Write(key: Key, row: SaltRow, stored: bool) | Sync(jid: Jid, env: Env)

  predicate Synthetic(jid: Jid) {
    "batch-" <= jid || "orch-" <= jid || "ssh-" <= jid || "sync-" <= jid
  }

  /** INSERT ... ON CONFLICT (jid, id) DO NOTHING */
  function Written(t: Tables, key: Key, row: SaltRow, stored: bool): Tables {
    if !stored || key in t.rows then t else t.(rows := t.rows[key := row])
  }

  function RowIds(t: Tables, jid: Jid): set<Id> {
    set k | k in t.rows && k.0 == jid :: k.1
  }

  function ReturnIds(t: Tables, jid: Jid): set<Id> {
    set k | k in t.recorded && k.0 == jid :: k.1
  }

  function AsReturn(row: SaltRow): JobReturn {
    JobReturn(row.success, row.payload)
  }

  /** The job returns after every row of jid has been copied over. */
  function Copied(t: Tables, jid: Jid): map<Key, JobReturn> {
    t.recorded + map k | k in t.rows && k.0 == jid :: AsReturn(t.rows[k])
  }

  /** No return of jid is younger than the grace period; with no times known the
      job's own start counts. */
  predicate Quiet(t: Tables, jid: Jid, started: int, now: int) {
    if exists k :: k in t.rows && k.0 == jid && t.rows[k].time.Some? then
      forall k :: k in t.rows && k.0 == jid && t.rows[k].time.Some? ==>
          now - t.rows[k].time.value > COMPLETE_AFTER_SECONDS
    else now - started > COMPLETE_AFTER_SECONDS
  }

  /** The completion rule of a sync that found rows. */
  predicate Completes(t: Tables, jid: Jid, started: int, env: Env) {
    && (env.master.Some? ==> env.master.value <= ReturnIds(t, jid) + RowIds(t, jid))
    && Quiet(t, jid, started, env.now)
  }

  /** sync_job, on jobs and job returns. */
  function Synced(t: Tables, jid: Jid, env: Env): Tables {
    if jid in t.jobs && Synthetic(jid) then t
    else if RowIds(t, jid) == {} then
      if jid in t.jobs && !t.jobs[jid].complete && (env.master.None? || env.master.value == {})
         && env.now - t.jobs[jid].started > COMPLETE_AFTER_SECONDS
      then t.(jobs := t.jobs[jid := t.jobs[jid].(complete := true)])
      else t
    else
      var job := if jid in t.jobs then t.jobs[jid] else Job(env.now, false);
      var recorded := Copied(t, jid);
      if job.complete && RowIds(t, jid) <= ReturnIds(t, jid) then t.(jobs := t.jobs[jid := job], recorded := recorded)
      else Tables(t.rows, t.jobs[jid := job.(complete := Completes(t, jid, job.started, env))], recorded)
  }

  function Step(t: Tables, e: Event): Tables {
    match e
    case Write(key, row, stored) => Written(t, key, row, stored)
    case Sync(jid, env) => Synced(t, jid, env)
  }

  function Run(t: Tables, events: seq<Event>): Tables
    decreases events
  {
    if events == [] then t else Run(Step(t, events[0]), events[1..])
  }

  // -------------------------------------------------------------- one row per return

  /** Every recorded return of a real job is its return-table row. */
  predicate Faithful(t: Tables) {
    forall k :: k in t.recorded && !Synthetic(k.0) ==> k in t.rows && t.recorded[k] == AsReturn(t.rows[k])
  }

  lemma CopiedAt(t: Tables, jid: Jid, k: Key)
    ensures k in Copied(t, jid) <==> k in t.recorded || (k in t.rows && k.0 == jid)
    ensures k in Copied(t, jid) ==>
              Copied(t, jid)[k] == if k in t.rows && k.0 == jid then AsReturn(t.rows[k]) else t.recorded[k]
  {
  }

  lemma StepFaithful(t: Tables, e: Event)
    requires Faithful(t)
    ensures Faithful(Step(t, e))
  {
    if e.Sync? {
      forall k | k in Step(t, e).recorded && !Synthetic(k.0)
        ensures k in t.rows && Step(t, e).recorded[k] == AsReturn(t.rows[k])
      {
        CopiedAt(t, e.jid, k);
      }
    }
  }

  /** Rows never change once stored, and recorded returns of real jobs only grow and
      keep their value. */
  lemma StepGrows(t: Tables, e: Event)
    requires Faithful(t)
    ensures forall k :: k in t.rows ==> k in Step(t, e).rows && Step(t, e).rows[k] == t.rows[k]
    ensures forall k :: k in t.recorded ==> k in Step(t, e).recorded
    ensures forall k :: k in t.recorded && !Synthetic(k.0) ==> Step(t, e).recorded[k] == t.recorded[k]
  {
  }

  lemma {:induction false} RunGrows(t: Tables, events: seq<Event>)
    requires Faithful(t)
    ensures Faithful(Run(t, events))
    ensures forall k :: k in t.rows ==> k in Run(t, events).rows && Run(t, events).rows[k] == t.rows[k]
    ensures forall k :: k in t.recorded ==> k in Run(t, events).recorded
    ensures forall k :: k in t.recorded && !Synthetic(k.0) ==> Run(t, events).recorded[k] == t.recorded[k]
    decreases events
  {
    if events != [] {
      StepFaithful(t, events[0]);
      StepGrows(t, events[0]);
      RunGrows(Step(t, events[0]), events[1..]);
    }
  }

  /** The first stored write of key in events, if there is one. */
  function FirstWrite(events: seq<Event>, key: Key): Option<SaltRow> {
    if events == [] then None
    else if events[0].Write? && events[0].key == key && events[0].stored then Some(events[0].row)
    else FirstWrite(events[1..], key)
  }

  /** First writer wins, through any interleaving of duplicate writes by any number
      of masters with syncs: the table holds the first stored row of each key, and a
      recorded return is that row. */
  lemma {:induction false} FirstWriterWins(t: Tables, events: seq<Event>, key: Key)
    requires Faithful(t)
    ensures var end := Run(t, events);
            var first := if key in t.rows then Some(t.rows[key]) else FirstWrite(events, key);
            && (key in end.rows <==> first.Some?)
            && (first.Some? ==> end.rows[key] == first.value)
            && (key in end.recorded && !Synthetic(key.0) ==>
                  first.Some? && end.recorded[key] == JobReturn(first.value.success, first.value.payload))
    decreases events
  {
    if events != [] {
      StepFaithful(t, events[0]);
      FirstWriterWins(Step(t, events[0]), events[1..], key);
    }
  }

  // -------------------------------------------------------------------- the sync rule

  lemma SyncedRows(t: Tables, jid: Jid, env: Env)
    ensures Synced(t, jid, env).rows == t.rows
    ensures RowIds(Synced(t, jid, env), jid) == RowIds(t, jid)
  {
  }

  /** After a sync that found rows, every one of them is recorded. */
  lemma SyncRecordsAll(t: Tables, jid: Jid, env: Env)
    requires !(jid in t.jobs && Synthetic(jid)) && RowIds(t, jid) != {}
    ensures Synced(t, jid, env).recorded == Copied(t, jid)
    ensures ReturnIds(Synced(t, jid, env), jid) == ReturnIds(t, jid) + RowIds(t, jid)
    ensures Copied(Synced(t, jid, env), jid) == Copied(t, jid)
  {
    var s := Synced(t, jid, env);
    forall i ensures i in ReturnIds(s, jid) <==> i in ReturnIds(t, jid) + RowIds(t, jid) {
      CopiedAt(t, jid, (jid, i));
      if i in ReturnIds(s, jid) { assert (jid, i) in s.recorded; }
      if i in ReturnIds(t, jid) { assert (jid, i) in t.recorded; }
      if i in RowIds(t, jid) { assert (jid, i) in t.rows; }
      if (jid, i) in s.recorded { assert (jid, i).1 in ReturnIds(s, jid); }
      if (jid, i) in t.recorded { assert (jid, i).1 in ReturnIds(t, jid); }
      if (jid, i) in t.rows { assert (jid, i).1 in RowIds(t, jid); }
    }
    forall k ensures k in Copied(s, jid) <==> k in Copied(t, jid) {
      CopiedAt(t, jid, k);
      CopiedAt(s, jid, k);
    }
    forall k | k in Copied(s, jid) ensures Copied(s, jid)[k] == Copied(t, jid)[k] {
      CopiedAt(t, jid, k);
      CopiedAt(s, jid, k);
    }
  }

  /** Repeating a sync at the same moment changes neither jobs nor job returns. */
  lemma SyncIsIdempotent(t: Tables, jid: Jid, env: Env)
    ensures Synced(Synced(t, jid, env), jid, env) == Synced(t, jid, env)
  {
    if !(jid in t.jobs && Synthetic(jid)) && RowIds(t, jid) != {} && !Synthetic(jid) {
      hide Quiet, RowIds, ReturnIds, Copied;
      var s := Synced(t, jid, env);
      SyncedRows(t, jid, env);
      SyncRecordsAll(t, jid, env);
      var started := s.jobs[jid].started;
      QuietSame(t, s, jid, started, env.now);
      assert Completes(s, jid, started, env) <==> Completes(t, jid, started, env);
    }
  }

  lemma QuietSame(t: Tables, s: Tables, jid: Jid, started: int, now: int)
    requires s.rows == t.rows
    ensures Quiet(s, jid, started, now) <==> Quiet(t, jid, started, now)
  {
  }

  /** Completion is sticky: with every row already recorded, no later sync, whatever
      the clock or the master says, changes a complete job or its returns. */
  lemma CompleteIsSticky(t: Tables, jid: Jid, env: Env)
    requires Faithful(t) && jid in t.jobs && t.jobs[jid].complete
    requires RowIds(t, jid) <= ReturnIds(t, jid) && !Synthetic(jid)
    ensures Synced(t, jid, env) == t
  {
    if RowIds(t, jid) != {} {
      var c := Copied(t, jid);
      forall k ensures k in c <==> k in t.recorded {
        CopiedAt(t, jid, k);
        if k in t.rows && k.0 == jid { RecordedHere(t, k); }
      }
      forall k | k in c ensures c[k] == t.recorded[k] { CopiedAt(t, jid, k); }
      assert c == t.recorded;
    }
  }

  lemma RecordedHere(t: Tables, k: Key)
    requires k in t.rows && RowIds(t, k.0) <= ReturnIds(t, k.0)
    ensures k in t.recorded
  {
    assert k.1 in RowIds(t, k.0);
    var r :| r in t.recorded && r.0 == k.0 && r.1 == k.1;
    assert r == k;
  }

  /** A complete job reopens only in a sync of that job that records a new minion,
      and only because the master names one still unrecorded or a return is young. */
  lemma ReopensOnlyForNewMinions(t: Tables, e: Event, jid: Jid)
    requires jid in t.jobs && t.jobs[jid].complete
    requires jid !in Step(t, e).jobs || !Step(t, e).jobs[jid].complete
    ensures e.Sync? && e.jid == jid && !Synthetic(jid)
    ensures exists i :: i in ReturnIds(Step(t, e), jid) && i !in ReturnIds(t, jid)
    ensures !Completes(t, jid, t.jobs[jid].started, e.env)
  {
    SyncRecordsAll(t, jid, e.env);
    var i :| i in RowIds(t, jid) && i !in ReturnIds(t, jid);
    assert i in ReturnIds(Step(t, e), jid);
  }

  /** The jids whose completion a worker owns, not a sync. */
  lemma SyntheticMeans(jid: Jid)
    ensures Synthetic(jid) <==>
              exists rest ::
                jid == "batch-" + rest || jid == "orch-" + rest || jid == "ssh-" + rest || jid == "sync-" + rest
  {
    if "batch-" <= jid { assert jid == "batch-" + jid[6..]; }
    if "orch-" <= jid { assert jid == "orch-" + jid[5..]; }
    if "ssh-" <= jid { assert jid == "ssh-" + jid[4..]; }
    if "sync-" <= jid { assert jid == "sync-" + jid[5..]; }
  }

  lemma IdsAre(t: Tables, jid: Jid, i: Id)
    ensures i in RowIds(t, jid) <==> (jid, i) in t.rows
    ensures i in ReturnIds(t, jid) <==> (jid, i) in t.recorded
  {
    if (jid, i) in t.rows { assert (jid, i).1 in RowIds(t, jid); }
    if (jid, i) in t.recorded { assert (jid, i).1 in ReturnIds(t, jid); }
  }

  /** A sync of a real job, or of one not known yet, key by key: it copies every row of
      the job and touches no other return. */
  lemma SyncCopies(t: Tables, jid: Jid, env: Env, k: Key)
    requires jid in t.jobs ==> !Synthetic(jid)
    ensures var s := Synced(t, jid, env);
            if k.0 == jid && k in t.rows then
              k in s.recorded && s.recorded[k] == JobReturn(t.rows[k].success, t.rows[k].payload)
            else (k in s.recorded <==> k in t.recorded) && (k in t.recorded ==> s.recorded[k] == t.recorded[k])
    ensures Synced(t, jid, env).rows == t.rows
  {
    CopiedAt(t, jid, k);
    IdsAre(t, jid, k.1);
    hide Completes, Copied, RowIds, ReturnIds;
  }

  /** When a sync leaves a job complete. Without any row an open job completes once the
      master knows no minion for it and its grace period is over. With rows, a complete
      job stays so if none of them is new; otherwise it is complete when each minion the
      master names has returned and the youngest return, or the job itself if no return
      has a time, is more than sixty seconds old. */
  lemma SyncCompletes(t: Tables, jid: Jid, env: Env)
    requires jid in t.jobs ==> !Synthetic(jid)
    ensures var s := Synced(t, jid, env);
            var was := jid in t.jobs && t.jobs[jid].complete;
            var started := if jid in t.jobs then t.jobs[jid].started else env.now;
            var answered := forall i :: env.master.Some? && i in env.master.value ==>
                              (jid, i) in t.recorded || (jid, i) in t.rows;
            var quiet := if exists i :: (jid, i) in t.rows && t.rows[(jid, i)].time.Some? then
                           forall i :: (jid, i) in t.rows && t.rows[(jid, i)].time.Some? ==>
                             env.now - t.rows[(jid, i)].time.value > 60
                         else env.now - started > 60;
            if forall i :: (jid, i) !in t.rows then
              && (jid in s.jobs <==> jid in t.jobs)
              && (jid in t.jobs ==>
                    s.jobs[jid] == Job(started, was || ((env.master.None? || env.master.value == {})
                                                        && env.now - started > 60)))
            else
              && jid in s.jobs && s.jobs[jid].started == started
              && (s.jobs[jid].complete <==>
                    (was && forall i :: (jid, i) in t.rows ==> (jid, i) in t.recorded) || (answered && quiet))
    ensures forall j :: j != jid ==> (j in Synced(t, jid, env).jobs <==> j in t.jobs)
                                     && (j in t.jobs ==> Synced(t, jid, env).jobs[j] == t.jobs[j])
  {
    forall i ensures i in RowIds(t, jid) <==> (jid, i) in t.rows
             ensures i in ReturnIds(t, jid) <==> (jid, i) in t.recorded
    {
      IdsAre(t, jid, i);
    }
    QuietMeans(t, jid, if jid in t.jobs then t.jobs[jid].started else env.now, env.now);
    hide Quiet, RowIds, ReturnIds, Copied, Synthetic;
  }

  lemma QuietMeans(t: Tables, jid: Jid, started: int, now: int)
    ensures Quiet(t, jid, started, now) <==>
              if exists i :: (jid, i) in t.rows && t.rows[(jid, i)].time.Some? then
                forall i :: (jid, i) in t.rows && t.rows[(jid, i)].time.Some? ==>
                  now - t.rows[(jid, i)].time.value > 60
              else now - started > 60
  {
    if k :| k in t.rows && k.0 == jid && t.rows[k].time.Some? { assert (jid, k.1) == k; }
    if Quiet(t, jid, started, now) {} else {
      if k :| k in t.rows && k.0 == jid && t.rows[k].time.Some? && now - t.rows[k].time.value <= 60 {
        assert (jid, k.1) == k;
      }
    }
  }

  // ----------------------------------------------------------------------- the methods

  class Database {
    var rows: map<Key, SaltRow>
    var jobs: map<Jid, Job>
    var recorded: map<Key, JobReturn>

    ghost function Model(): Tables
      reads this
    {
      Tables(rows, jobs, recorded)
    }

    constructor ()
      ensures Model() == Tables(map[], map[], map[])
    {
      rows, jobs, recorded := map[], map[], map[];
    }

    /** returner: insert, ignoring a conflict on (jid, id); a database error drops it. */
    method Returner(key: Key, row: SaltRow, stored: bool)
      modifies this`rows
      ensures Model() == Step(old(Model()), Write(key, row, stored))
    {
      if stored && key !in rows {
        rows := rows[key := row];
      }
    }

    /** sync_job. order is the row order the query happened to return. */
    method SyncJob(jid: Jid, env: Env, order: seq<Id>)
      requires forall i :: i in order <==> (jid, i) in rows
      modifies this`jobs, this`recorded
      ensures Model() == Step(old(Model()), Sync(jid, env))
    {
      ghost var t := Model();
      RowIdsAre(t, jid, order);
      hide Quiet, Copied, RowIds, ReturnIds, Completes;
      if jid in jobs && Synthetic(jid) {
        return;
      }
      if order == [] {
        if jid in jobs && !jobs[jid].complete {
          var done := env.master.None? || env.master.value == {};
          if done && env.now - jobs[jid].started > COMPLETE_AFTER_SECONDS {
            jobs := jobs[jid := jobs[jid].(complete := true)];
          }
        }
        return;
      }
      var fresher, known := CopyRows(jid, order);
      if jid !in jobs {
        jobs := jobs[jid := Job(env.now, false)];
      }
      var job := jobs[jid];
      NothingNew(t, jid);
      if job.complete && fresher == {} {
        jobs := jobs[jid := job];
        return;
      }
      var complete := false;
      if env.master.None? || env.master.value <= known {
        complete := QuietNow(jid, order, job.started, env.now, t);
      }
      CompletesIs(t, jid, job.started, env);
      assert t.jobs[jid := job][jid := job.(complete := complete)] == t.jobs[jid := job.(complete := complete)];
      jobs := jobs[jid := job.(complete := complete)];
    }

    /** The last part of the completion rule: no return younger than the grace period. */
    method QuietNow(jid: Jid, order: seq<Id>, started: int, now: int, ghost t: Tables) returns (quiet: bool)
      requires t.rows == rows && forall i :: i in order <==> (jid, i) in rows
      ensures quiet <==> Quiet(t, jid, started, now)
    {
      hide Quiet;
      var youngest := Youngest(jid, order);
      QuietByYoungest(t, jid, started, now, youngest);
      quiet := now - (if youngest.None? then started else youngest.value) > COMPLETE_AFTER_SECONDS;
    }

    /** The row loop: update the recorded returns, insert the new ones. */
    method CopyRows(jid: Jid, order: seq<Id>) returns (fresher: set<Id>, known: set<Id>)
      requires forall i :: i in order <==> (jid, i) in rows
      modifies this`recorded
      ensures recorded == Copied(old(Model()), jid)
      ensures fresher == RowIds(old(Model()), jid) - ReturnIds(old(Model()), jid)
      ensures known == ReturnIds(old(Model()), jid) + RowIds(old(Model()), jid)
    {
      hide Copied, PartCopied, RowIds, ReturnIds;
      ghost var t := Model();
      var stored := StoredIds(jid);
      fresher := {};
      ghost var seen: set<Id> := {};
      NothingCopied(t, jid);
      for j := 0 to |order|
        invariant seen == set i | i in order[..j]
        invariant recorded == PartCopied(t, jid, seen)
        invariant fresher == seen - stored
      {
        var i := order[j];
        assert order[..j + 1] == order[..j] + [i];
        PartStep(t, jid, seen, i);
        var row := rows[(jid, i)];
        if i !in stored {
          fresher := fresher + {i};
        }
        recorded := recorded[(jid, i) := JobReturn(row.success, row.payload)];
        seen := seen + {i};
      }
      assert order[..|order|] == order;
      RowIdsAre(t, jid, order);
      AllCopied(t, jid);
      known := stored + fresher;
    }

    /** {row.minion_id for the job's recorded returns} */
    method StoredIds(jid: Jid) returns (ids: set<Id>)
      ensures ids == ReturnIds(Model(), jid)
    {
      ids := set k | k in recorded && k.0 == jid :: k.1;
    }

    /** max(r.alter_time for rows that have one), or None. */
    method Youngest(jid: Jid, order: seq<Id>) returns (youngest: Option<int>)
      requires forall i :: i in order <==> (jid, i) in rows
      ensures forall t: Tables :: t.rows == rows ==> IsYoungest(t, jid, youngest)
    {
      youngest := None;
      for j := 0 to |order|
        invariant youngest.None? ==> forall i :: i in order[..j] ==> rows[(jid, i)].time.None?
        invariant youngest.Some? ==> exists i :: i in order[..j] && rows[(jid, i)].time == youngest
        invariant youngest.Some? ==> forall i :: i in order[..j] && rows[(jid, i)].time.Some? ==>
                    rows[(jid, i)].time.value <= youngest.value
      {
        var time := rows[(jid, order[j])].time;
        assert order[..j + 1] == order[..j] + [order[j]];
        if time.Some? && (youngest.None? || time.value > youngest.value) {
          youngest := time;
        }
      }
      assert order[..|order|] == order;
      if youngest.Some? {
        var i :| i in order && rows[(jid, i)].time == youngest;
        assert (jid, i) in rows;
      }
    }
  }

  ghost predicate IsYoungest(t: Tables, jid: Jid, youngest: Option<int>) {
    if youngest.None? then forall k :: k in t.rows && k.0 == jid ==> t.rows[k].time.None?
    else
      && (exists k :: k in t.rows && k.0 == jid && t.rows[k].time == youngest)
      && forall k :: k in t.rows && k.0 == jid && t.rows[k].time.Some? ==> t.rows[k].time.value <= youngest.value
  }

  lemma QuietByYoungest(t: Tables, jid: Jid, started: int, now: int, youngest: Option<int>)
    requires IsYoungest(t, jid, youngest)
    ensures Quiet(t, jid, started, now) <==>
              now - (if youngest.None? then started else youngest.value) > COMPLETE_AFTER_SECONDS
  {
  }

  lemma NothingNew(t: Tables, jid: Jid)
    ensures RowIds(t, jid) - ReturnIds(t, jid) == {} <==> RowIds(t, jid) <= ReturnIds(t, jid)
  {
    hide RowIds, ReturnIds;
    var a, b := RowIds(t, jid), ReturnIds(t, jid);
    assert a <= b + (a - b);
  }

  lemma CompletesIs(t: Tables, jid: Jid, started: int, env: Env)
    ensures Completes(t, jid, started, env) <==>
              && (env.master.None? || env.master.value <= ReturnIds(t, jid) + RowIds(t, jid))
              && Quiet(t, jid, started, env.now)
  {
  }

  lemma RowIdsAre(t: Tables, jid: Jid, order: seq<Id>)
    requires forall i :: i in order <==> (jid, i) in t.rows
    ensures RowIds(t, jid) == set i | i in order
    ensures RowIds(t, jid) == {} <==> order == []
  {
    forall i ensures i in RowIds(t, jid) <==> i in order {
      if i in RowIds(t, jid) {
        var k :| k in t.rows && k.0 == jid && k.1 == i;
        assert k == (jid, i);
      }
      if i in order { assert (jid, i) in t.rows && (jid, i).1 in RowIds(t, jid); }
    }
    if order != [] { assert order[0] in RowIds(t, jid); }
  }

  /** The returns after the rows of some ids have been copied. */
  function PartCopied(t: Tables, jid: Jid, ids: set<Id>): map<Key, JobReturn> {
    t.recorded + map k | k in t.rows && k.0 == jid && k.1 in ids :: AsReturn(t.rows[k])
  }

  lemma NothingCopied(t: Tables, jid: Jid)
    ensures PartCopied(t, jid, {}) == t.recorded
  {
  }

  lemma PartStep(t: Tables, jid: Jid, ids: set<Id>, i: Id)
    requires (jid, i) in t.rows
    ensures PartCopied(t, jid, ids + {i}) == PartCopied(t, jid, ids)[(jid, i) := AsReturn(t.rows[(jid, i)])]
  {
  }

  lemma AllCopied(t: Tables, jid: Jid)
    ensures PartCopied(t, jid, RowIds(t, jid)) == Copied(t, jid)
  {
    forall k | k in t.rows && k.0 == jid ensures k.1 in RowIds(t, jid) {}
  }
}
