/** The tail of sync_job: each sync that finds something new hands the job's rows to the
    conformity board. Over any run of writes and syncs, the board and the recorded
    returns tell the same story. */
module SyncVerdicts {
  import opened Options
  import opened ReturnPipeline
  import V = Verdicts

  /** How a stored return reads as a verdict sees it: its success, and its payload
      decoded. */
  type Reading = JobReturn -> V.Ret

  /** A state job that ran on minions, whose landing may stamp verdicts. */
  type Eligible = Jid -> bool

  datatype Hub = Hub(t: Tables, board: V.Board)

  /** A master stores a return, or somebody syncs a job; the target it names and the
      watch set are those of that moment. */
  datatype Moment =
    | Stores(key: Key, row: SaltRow, stored: bool)
    | Syncs(jid: Jid, env: Env, roster: Option<seq<Id>>, watched: set<string>)

  /** What the rows of a job say, minion by minion. */
  function Returned(t: Tables, jid: Jid, reading: Reading): map<Id, V.Ret> {
    map i | i in RowIds(t, jid) && (jid, i) in t.rows :: reading(AsReturn(t.rows[(jid, i)]))
  }

  function Starts(t: Tables): V.Started {
    map j | j in t.jobs :: t.jobs[j].started
  }

  /** A sync reaches the verdicts: without rows when it completes the job, with rows
      unless the job was complete and none of them is new. */
  predicate Lands(t: Tables, jid: Jid, env: Env) {
    && !(jid in t.jobs && Synthetic(jid))
    && if RowIds(t, jid) == {} then
         jid in t.jobs && !t.jobs[jid].complete && Synced(t, jid, env).jobs[jid].complete
       else !(jid in t.jobs && t.jobs[jid].complete && RowIds(t, jid) <= ReturnIds(t, jid))
  }

  function Step(h: Hub, e: Moment, eligible: Eligible, reading: Reading): Hub {
    match e
    case Stores(key, row, stored) => Hub(Written(h.t, key, row, stored), h.board)
    case Syncs(jid, env, roster, watched) =>
      var s := Synced(h.t, jid, env);
      if !eligible(jid) || !Lands(h.t, jid, env) then Hub(s, h.board)
      else
        var stamps := V.Stamps(Returned(h.t, jid, reading), jid in s.jobs && s.jobs[jid].complete, roster, watched);
        Hub(s, V.Landed(h.board, V.Landing(jid, stamps), Starts(s)))
  }

  function Run(h: Hub, es: seq<Moment>, eligible: Eligible, reading: Reading): Hub
    decreases es
  {
    if es == [] then h else Run(Step(h, es[0], eligible, reading), es[1..], eligible, reading)
  }

  // ------------------------------------------------------------------- the invariant

  /** Every recorded return of an eligible job is its row. */
  ghost predicate Mirrors(t: Tables, eligible: Eligible) {
    forall k :: k in t.recorded && eligible(k.0) ==> k in t.rows && t.recorded[k] == AsReturn(t.rows[k])
  }

  /** A verdict is of a known eligible job; it says unreachable exactly where that job has no
      recorded return from the minion. */
  predicate Grounded(h: Hub, eligible: Eligible, m: Id) {
    m in h.board.conformity ==>
      var c := h.board.conformity[m];
      && eligible(c.jid) && c.jid in h.t.jobs && c.jid != ""
      && (c.verdict.status == V.NotReached <==> (c.jid, m) !in h.t.recorded)
  }

  /** A recorded return of an eligible job is spoken for: by a verdict of that job, or of one
      that started no earlier. */
  predicate Spoken(h: Hub, eligible: Eligible, jid: Jid, m: Id) {
    eligible(jid) && (jid, m) in h.t.recorded ==>
      && jid in h.t.jobs && m in h.board.conformity && h.board.conformity[m].jid in h.t.jobs
      && h.t.jobs[h.board.conformity[m].jid].started >= h.t.jobs[jid].started
  }

  ghost predicate Inv(h: Hub, eligible: Eligible) {
    && Mirrors(h.t, eligible)
    && (forall m :: Grounded(h, eligible, m))
    && (forall jid, m :: Spoken(h, eligible, jid, m))
  }

  /** What a sync does to the tables, as far as the verdicts see it. */
  lemma SyncFacts(t: Tables, jid: Jid, env: Env, k: Key)
    ensures var s := Synced(t, jid, env);
            && s.rows == t.rows
            && (forall j :: j in t.jobs ==> j in s.jobs && s.jobs[j].started == t.jobs[j].started)
            && (Lands(t, jid, env) ==> jid in s.jobs)
            && (if !(jid in t.jobs && Synthetic(jid)) && k.0 == jid && k in t.rows then
                  k in s.recorded && s.recorded[k] == AsReturn(t.rows[k])
                else (k in s.recorded <==> k in t.recorded) && (k in t.recorded ==> s.recorded[k] == t.recorded[k]))
  {
    if !(jid in t.jobs && Synthetic(jid)) {
      SyncCopies(t, jid, env, k);
      SyncCompletes(t, jid, env);
      IdsAre(t, jid, k.1);
    }
  }

  /** A sync that does not reach the verdicts recorded nothing new. */
  lemma SilentSync(t: Tables, jid: Jid, env: Env, eligible: Eligible, k: Key)
    requires Mirrors(t, eligible) && !Lands(t, jid, env) && eligible(k.0)
    ensures var s := Synced(t, jid, env);
            (k in s.recorded <==> k in t.recorded) && (k in t.recorded ==> s.recorded[k] == t.recorded[k])
  {
    SyncFacts(t, jid, env, k);
    IdsAre(t, jid, k.1);
    hide Synced, RowIds, ReturnIds;
    if k.0 == jid && k in t.rows {
      assert k == (jid, k.1);
      assert RowIds(t, jid) != {};
    }
  }

  lemma SyncMirrors(t: Tables, jid: Jid, env: Env, eligible: Eligible)
    requires Mirrors(t, eligible)
    ensures Mirrors(Synced(t, jid, env), eligible)
  {
    hide Synced, AsReturn;
    forall k | k in Synced(t, jid, env).recorded && eligible(k.0)
      ensures k in t.rows && Synced(t, jid, env).recorded[k] == AsReturn(t.rows[k])
    {
      SyncFacts(t, jid, env, k);
    }
    SyncFacts(t, jid, env, ("", ""));
  }

  /** What a landing leaves on one minion. */
  lemma LandedOn(h: Hub, jid: Jid, env: Env, roster: Option<seq<Id>>, watched: set<string>, eligible: Eligible,
                 reading: Reading, m: Id)
    requires eligible(jid) && Lands(h.t, jid, env)
    ensures var s, after := Synced(h.t, jid, env), Step(h, Syncs(jid, env, roster, watched), eligible, reading);
            var c, c' := V.ConformityOf(h.board, m), V.ConformityOf(after.board, m);
            var returned := (jid, m) in h.t.rows;
            && after.t == s
            && (returned && !V.Newer(c, jid, Starts(s)) ==>
                  c'.Some? && c'.value.jid == jid
                  && c'.value.verdict == V.Judgement(Returned(h.t, jid, reading), watched, m)
                  && c'.value.verdict.status != V.NotReached)
            && (!returned ==> c' == c || c' == Some(V.Conformity(V.Verdict(V.NotReached, false), jid)))
            && (c' == c || (!V.Newer(c, jid, Starts(s)) && c'.Some? && c'.value.jid == jid))
            && (returned && V.Newer(c, jid, Starts(s)) ==> c' == c)
  {
    var s := Synced(h.t, jid, env);
    var returns' := Returned(h.t, jid, reading);
    var complete := jid in s.jobs && s.jobs[jid].complete;
    ReturnedAt(h.t, jid, reading, m);
    hide Lands, Synced, Returned, RowIds, V.Landed, V.Newer, V.Stamps, V.Judgement, V.ConformityOf;
    BoardAt(h.board, jid, returns', complete, roster, watched, Starts(s), m);
  }

  /** The same of a board and what was returned. */
  lemma BoardAt(board: V.Board, jid: Jid, returns': map<Id, V.Ret>, complete: bool, roster: Option<seq<Id>>,
                watched: set<string>, started: V.Started, m: Id)
    ensures var after := V.Landed(board, V.Landing(jid, V.Stamps(returns', complete, roster, watched)), started);
            var c, c' := V.ConformityOf(board, m), V.ConformityOf(after, m);
            && (m in returns' && !V.Newer(c, jid, started) ==>
                  c'.Some? && c'.value.jid == jid && c'.value.verdict == V.Judgement(returns', watched, m)
                  && c'.value.verdict.status != V.NotReached)
            && (m !in returns' ==> c' == c || c' == Some(V.Conformity(V.Verdict(V.NotReached, false), jid)))
            && (c' == c || (!V.Newer(c, jid, started) && c'.Some? && c'.value.jid == jid))
            && (m in returns' && V.Newer(c, jid, started) ==> c' == c)
  {
    var stamps := V.Stamps(returns', complete, roster, watched);
    V.StampsAreClaims(returns', complete, roster, watched, m);
    if m in stamps { V.StampAt(returns', complete, roster, watched, m); }
    hide V.Landed, V.Newer, V.Stamps, V.VerdictOf, V.ConformityOf;
    V.LandedAt(board, V.Landing(jid, stamps), started, m);
  }

  /** One moment keeps the invariant. */
  lemma StepKeepsInv(h: Hub, e: Moment, eligible: Eligible, reading: Reading)
    requires Inv(h, eligible) && !eligible("")
    ensures Inv(Step(h, e, eligible, reading), eligible)
  {
    hide V.Landed, AsReturn, Synced, Lands;
    var after := Step(h, e, eligible, reading);
    match e
    case Stores(key, row, stored) =>
      forall m ensures Grounded(after, eligible, m) { assert Grounded(h, eligible, m); }
      forall jid, m ensures Spoken(after, eligible, jid, m) { assert Spoken(h, eligible, jid, m); }
    case Syncs(jid, env, roster, watched) =>
      SyncMirrors(h.t, jid, env, eligible);
      forall m ensures Grounded(after, eligible, m) { SyncGrounds(h, e, eligible, reading, m); }
      forall j, m ensures Spoken(after, eligible, j, m) { SyncSpeaks(h, e, eligible, reading, j, m); }
  }

  lemma SyncGrounds(h: Hub, e: Moment, eligible: Eligible, reading: Reading, m: Id)
    requires Inv(h, eligible) && !eligible("") && e.Syncs?
    ensures Grounded(Step(h, e, eligible, reading), eligible, m)
  {
    hide V.Landed, V.Newer, AsReturn, Synced, Lands, V.Judgement;
    var after := Step(h, e, eligible, reading);
    assert Grounded(h, eligible, m);
    SyncFacts(h.t, e.jid, e.env, (e.jid, m));
    if m in h.board.conformity { SyncFacts(h.t, e.jid, e.env, (h.board.conformity[m].jid, m)); }
    if eligible(e.jid) && Lands(h.t, e.jid, e.env) {
      LandedOn(h, e.jid, e.env, e.roster, e.watched, eligible, reading, m);
      NeverSelfNewer(V.ConformityOf(h.board, m), e.jid, Starts(Synced(h.t, e.jid, e.env)));
      RealLands(h.t, e.jid, e.env);
    } else if m in h.board.conformity && !Lands(h.t, e.jid, e.env) {
      SilentSync(h.t, e.jid, e.env, eligible, (h.board.conformity[m].jid, m));
    }
  }

  lemma RealLands(t: Tables, jid: Jid, env: Env)
    ensures Lands(t, jid, env) ==> !(jid in t.jobs && Synthetic(jid))
  {
  }

  lemma NeverSelfNewer(c: Option<V.Conformity>, jid: Jid, started: V.Started)
    ensures c.Some? && c.value.jid == jid ==> !V.Newer(c, jid, started)
  {
  }

  lemma SyncSpeaks(h: Hub, e: Moment, eligible: Eligible, reading: Reading, jid: Jid, m: Id)
    requires Inv(h, eligible) && !eligible("") && e.Syncs?
    ensures Spoken(Step(h, e, eligible, reading), eligible, jid, m)
  {
    hide V.Landed, AsReturn, Synced, Lands, V.Judgement;
    assert Grounded(h, eligible, m) && Spoken(h, eligible, jid, m);
    SyncFacts(h.t, e.jid, e.env, (jid, m));
    if eligible(e.jid) && Lands(h.t, e.jid, e.env) {
      LandedOn(h, e.jid, e.env, e.roster, e.watched, eligible, reading, m);
    } else if eligible(jid) && !Lands(h.t, e.jid, e.env) {
      SilentSync(h.t, e.jid, e.env, eligible, (jid, m));
    }
  }

  /** Over any run of writes and syncs by anybody: a verdict says unreachable exactly
      where its job has no recorded return from the minion, and every recorded return of
      an eligible job is answered by a verdict of that job or of one that started no earlier. */
  lemma {:induction false} RunKeepsInv(h: Hub, es: seq<Moment>, eligible: Eligible, reading: Reading)
    requires Inv(h, eligible) && !eligible("")
    ensures Inv(Run(h, es, eligible, reading), eligible)
    decreases es
  {
    hide Inv, Step;
    if es != [] {
      StepKeepsInv(h, es[0], eligible, reading);
      RunKeepsInv(Step(h, es[0], eligible, reading), es[1..], eligible, reading);
    }
  }

  /** So, from a board with no verdicts: whatever return of an eligible job is recorded, its
      minion has a verdict, of that job or of a known one that started no earlier. */
  lemma ReturnsAreAnswered(t: Tables, es: seq<Moment>, eligible: Eligible, reading: Reading, jid: Jid, m: Id)
    requires !eligible("") && forall k :: k in t.recorded ==> !eligible(k.0)
    ensures var end := Run(Hub(t, V.Board(map[], map[])), es, eligible, reading);
            eligible(jid) && (jid, m) in end.t.recorded ==>
              && jid in end.t.jobs && m in end.board.conformity && end.board.conformity[m].jid in end.t.jobs
              && end.t.jobs[end.board.conformity[m].jid].started >= end.t.jobs[jid].started
  {
    hide Run;
    var h := Hub(t, V.Board(map[], map[]));
    RunKeepsInv(h, es, eligible, reading);
    assert Spoken(Run(h, es, eligible, reading), eligible, jid, m);
  }

  /** Which syncs are idle: those of a job a worker owns, and those of a complete job with
      no row that is not recorded. */
  lemma IdleSync(h: Hub, jid: Jid, env: Env, roster: Option<seq<Id>>, watched: set<string>, eligible: Eligible,
                 reading: Reading)
    requires Faithful(h.t) && jid in h.t.jobs
    requires Synthetic(jid)
             || (h.t.jobs[jid].complete && forall i :: (jid, i) in h.t.rows ==> (jid, i) in h.t.recorded)
    ensures Step(h, Syncs(jid, env, roster, watched), eligible, reading) == h
  {
    if Synthetic(jid) {
      SyntheticStays(h.t, jid, env);
    } else {
      forall i | i in RowIds(h.t, jid) ensures i in ReturnIds(h.t, jid) { IdsAre(h.t, jid, i); }
      CompleteIsSticky(h.t, jid, env);
    }
    hide RowIds, ReturnIds, V.Landed, V.Stamps, Synced, Returned, Synthetic, Faithful;
  }

  /** Without rows a sync speaks only when it completes the job. */
  lemma SilentWithoutRows(h: Hub, jid: Jid, env: Env, roster: Option<seq<Id>>, watched: set<string>, eligible: Eligible,
                          reading: Reading)
    requires forall i :: (jid, i) !in h.t.rows
    ensures var after := Step(h, Syncs(jid, env, roster, watched), eligible, reading);
            after.board != h.board ==>
              jid in h.t.jobs && !h.t.jobs[jid].complete && jid in after.t.jobs && after.t.jobs[jid].complete
  {
    assert RowIds(h.t, jid) == {} by {
      if i :| i in RowIds(h.t, jid) { IdsAre(h.t, jid, i); }
    }
    SyncFacts(h.t, jid, env, (jid, ""));
    hide RowIds, ReturnIds, V.Landed, V.Stamps, Synced, Returned, Synthetic;
  }

  lemma SyntheticStays(t: Tables, jid: Jid, env: Env)
    ensures jid in t.jobs && Synthetic(jid) ==> Synced(t, jid, env) == t
  {
  }

  /** Every other sync of an eligible job speaks: of each minion that returned, and, when
      it leaves the job complete, of each one its target names, unless a job that
      started later holds the verdict. */
  lemma OtherSyncsSpeak(h: Hub, jid: Jid, env: Env, roster: Option<seq<Id>>, watched: set<string>, eligible: Eligible,
                        reading: Reading, m: Id)
    requires eligible(jid) && !(jid in h.t.jobs && Synthetic(jid))
    requires if exists i :: (jid, i) in h.t.rows then
               !(jid in h.t.jobs && h.t.jobs[jid].complete)
               || exists i :: (jid, i) in h.t.rows && (jid, i) !in h.t.recorded
             else
               && jid in h.t.jobs && !h.t.jobs[jid].complete
               && jid in Synced(h.t, jid, env).jobs && Synced(h.t, jid, env).jobs[jid].complete
    ensures var after := Step(h, Syncs(jid, env, roster, watched), eligible, reading);
            var c, c' := V.ConformityOf(h.board, m), V.ConformityOf(after.board, m);
            var named := jid in after.t.jobs && after.t.jobs[jid].complete && roster.Some? && m in roster.value;
            if !((jid, m) in h.t.rows || named) || V.Newer(c, jid, Starts(after.t)) then c' == c
            else c'.Some? && c'.value.jid == jid && (c'.value.verdict.status == V.NotReached <==> (jid, m) !in h.t.rows)
  {
    forall i ensures i in RowIds(h.t, jid) <==> (jid, i) in h.t.rows
             ensures i in ReturnIds(h.t, jid) <==> (jid, i) in h.t.recorded
    {
      IdsAre(h.t, jid, i);
    }
    hide RowIds, ReturnIds;
    assert Lands(h.t, jid, env);
    ReturnedAt(h.t, jid, reading, m);
    hide Synced, Lands, Returned, V.Landed, V.Newer, V.Stamps;
    var s := Synced(h.t, jid, env);
    var returns' := Returned(h.t, jid, reading);
    var complete := jid in s.jobs && s.jobs[jid].complete;
    V.StampsAreClaims(returns', complete, roster, watched, m);
    V.LandedAt(h.board, V.Landing(jid, V.Stamps(returns', complete, roster, watched)), Starts(s), m);
  }

  // ------------------------------------------------------- under one watch set

  /** The verdict on m is what the recorded return of its job says. */
  predicate Told(h: Hub, reading: Reading, watched: set<string>, m: Id) {
    m in h.board.conformity && (h.board.conformity[m].jid, m) in h.t.recorded ==>
      var c := h.board.conformity[m];
      var said := V.VerdictOf(reading(h.t.recorded[(c.jid, m)]), watched);
      c.verdict == V.Verdict(said.0, said.1)
  }

  lemma StepTells(h: Hub, e: Moment, eligible: Eligible, reading: Reading, watched: set<string>, m: Id)
    requires Inv(h, eligible) && !eligible("") && Told(h, reading, watched, m)
    requires e.Syncs? ==> e.watched == watched
    ensures Told(Step(h, e, eligible, reading), reading, watched, m)
  {
    hide V.Landed, V.Newer, AsReturn, Synced, Lands, V.VerdictOf, Returned;
    if e.Syncs? {
      assert Grounded(h, eligible, m);
      SyncFacts(h.t, e.jid, e.env, (e.jid, m));
      if m in h.board.conformity { SyncFacts(h.t, e.jid, e.env, (h.board.conformity[m].jid, m)); }
      if eligible(e.jid) && Lands(h.t, e.jid, e.env) {
        LandedOn(h, e.jid, e.env, e.roster, watched, eligible, reading, m);
        NeverSelfNewer(V.ConformityOf(h.board, m), e.jid, Starts(Synced(h.t, e.jid, e.env)));
        RealLands(h.t, e.jid, e.env);
        ReturnedAt(h.t, e.jid, reading, m);
      } else if m in h.board.conformity && !Lands(h.t, e.jid, e.env) {
        SilentSync(h.t, e.jid, e.env, eligible, (h.board.conformity[m].jid, m));
      }
    }
  }

  lemma ReturnedAt(t: Tables, jid: Jid, reading: Reading, i: Id)
    ensures i in Returned(t, jid, reading) <==> (jid, i) in t.rows
    ensures (jid, i) in t.rows ==> Returned(t, jid, reading)[i] == reading(AsReturn(t.rows[(jid, i)]))
  {
    IdsAre(t, jid, i);
  }

  lemma {:induction false} RunTells(h: Hub, es: seq<Moment>, eligible: Eligible, reading: Reading, watched: set<string>,
                                    m: Id)
    requires Inv(h, eligible) && !eligible("") && Told(h, reading, watched, m)
    requires forall k :: 0 <= k < |es| && es[k].Syncs? ==> es[k].watched == watched
    ensures Told(Run(h, es, eligible, reading), reading, watched, m)
    decreases es
  {
    hide Inv, Step, Told;
    if es != [] {
      StepKeepsInv(h, es[0], eligible, reading);
      StepTells(h, es[0], eligible, reading, watched, m);
      RunTells(Step(h, es[0], eligible, reading), es[1..], eligible, reading, watched, m);
    }
  }

  /** From a board with no verdicts, through any run of duplicate writes and of syncs by
      anybody under one watch set: the verdict on a minion is what the return recorded for
      its job says, that return is the row first stored, and where there is none the
      verdict is that the minion was not reached. */
  lemma BoardTellsReturns(t: Tables, es: seq<Moment>, eligible: Eligible, reading: Reading, watched: set<string>, m: Id)
    requires !eligible("") && forall k :: k in t.recorded ==> !eligible(k.0)
    requires forall k :: 0 <= k < |es| && es[k].Syncs? ==> es[k].watched == watched
    ensures var end := Run(Hub(t, V.Board(map[], map[])), es, eligible, reading);
            m in end.board.conformity ==>
              var c := end.board.conformity[m];
              if (c.jid, m) !in end.t.recorded then c.verdict.status == V.NotReached
              else
                && (c.jid, m) in end.t.rows
                && var row := end.t.rows[(c.jid, m)];
                var said := V.VerdictOf(reading(JobReturn(row.success, row.payload)), watched);
                && end.t.recorded[(c.jid, m)] == JobReturn(row.success, row.payload)
                && c.verdict == V.Verdict(said.0, said.1)
  {
    hide V.VerdictOf, Step;
    var h := Hub(t, V.Board(map[], map[]));
    RunKeepsInv(h, es, eligible, reading);
    RunTells(h, es, eligible, reading, watched, m);
    assert Grounded(Run(h, es, eligible, reading), eligible, m);
  }

  // ------------------------------------------------------------------------ the method

  /** sync_job with its last call. order is the row order the query happened to return. */
  method SyncAndStamp(db: Database, store: V.ConformityStore, jid: Jid, env: Env, order: seq<Id>, eligible: Eligible,
                      reading: Reading, roster: Option<seq<Id>>, watched: set<string>)
    requires forall i :: i in order <==> (jid, i) in db.rows
    modifies db`jobs, db`recorded, store
    ensures Hub(db.Model(), store.Model())
         == Step(old(Hub(db.Model(), store.Model())), Syncs(jid, env, roster, watched), eligible, reading)
  {
    hide V.Landed, V.Stamps, Synced, RowIds, ReturnIds;
    ghost var t := db.Model();
    RowIdsAre(t, jid, order);
    var known, open := jid in db.jobs, !(jid in db.jobs && db.jobs[jid].complete);
    var news := exists i :: i in order && (jid, i) !in db.recorded;
    forall i ensures i in ReturnIds(t, jid) <==> (jid, i) in t.recorded { IdsAre(t, jid, i); }
    assert news <==> !(RowIds(t, jid) <= ReturnIds(t, jid));
    db.SyncJob(jid, env, order);
    if known && Synthetic(jid) { return; }
    SyncFacts(t, jid, env, (jid, ""));
    var lands := if order == [] then known && open && db.jobs[jid].complete else open || news;
    assert lands <==> Lands(t, jid, env);
    if lands {
      var returns' := map i | i in order :: reading(AsReturn(db.rows[(jid, i)]));
      var starts := map j | j in db.jobs :: db.jobs[j].started;
      assert returns' == Returned(t, jid, reading) by {
        forall i ensures i in Returned(t, jid, reading) <==> i in order { ReturnedAt(t, jid, reading, i); }
        forall i | i in order ensures Returned(t, jid, reading)[i] == returns'[i] { ReturnedAt(t, jid, reading, i); }
      }
      store.ApplySyncVerdicts(jid, eligible(jid), db.jobs[jid].complete, roster, returns', watched, starts);
    }
  }
}
