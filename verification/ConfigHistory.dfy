/** Editors of one live ConfigMap with a capped history, interleaved call by call.

    Every editor is a program of API calls; the two objects accept a replace only at
    the resourceVersion they hold. A step is one call of one editor, and any call may
    fail, before or after the server applied it. */
module ConfigHistory {
  import opened Trails

  type Editor = nat
  type Data = map<string, string>

  /** One snapshot: the live object as it was read. */
  datatype Snapshot = Snapshot(rv: nat, data: Data)

  datatype Live = Live(rv: nat, data: Data)

  /** The history object: absent until the first save, or present and holding a list,
      or present and unreadable. */
  datatype History = Absent | Stored(rv: nat, list: seq<Snapshot>) | Unreadable(rv: nat)

  /** A resourceVersion sent as the base of a replace; "" is NoBase. */
  datatype Base = NoBase | AtRv(rv: nat)

  /** How a call ends for its caller. */
  datatype Fault = Fine | Refused | ResponseLost

  /** Where an editor is. A save or reactor write carries the version its form was
      read at and the base it sends, which a form posted without one leaves empty; a
      revert has neither and writes at a version it re-reads. */
  datatype Pc =
    | Idle
    | FormOpen(formRv: nat, seen: Data, key: string)
    | HaveLive(intent: Intent, data: Data, revision: nat)
    | HaveHistory(intent: Intent, data: Data, revision: nat, revisions: seq<Snapshot>, base: Base, retried: bool)
    | MustReread(intent: Intent, data: Data, revision: nat)
    | Snapshotted(intent: Intent, data: Data, revision: nat)
    | RevertTarget(target: Data)
    | RevertReady(target: Data, current: nat)

  datatype Intent = Edit(base: Base, seen: Data, key: string, text: string) | Restore(target: Data)

  /** A live write that took effect. before is the live object it replaced. */
  datatype Write = Write(intent: Intent, before: Live, after: Live, logged: nat)

  /** log holds every snapshot that reached the history object, in order; writes every
      replace of the live object; versions every live object there ever was. The last
      three are for stating what happened: no step reads them. */
  datatype State = State(
    live: Live, history: History, clock: nat, pcs: map<Editor, Pc>,
    log: seq<Snapshot>, writes: seq<Write>, versions: map<nat, Data>)

  datatype Action =
    | Open(e: Editor, key: string)                     // edit page: read the live object
    | SubmitSave(e: Editor, text: string, valid: bool, based: bool)
      // save: read live, check size and YAML; whether the posted form has its base
    | SubmitReactor(e: Editor, key: string, text: string)
      // reactor persist: read live, build text; the same text if already recorded
    | StartRevert(e: Editor)                           // revert: read history
    | RevertReadLive(e: Editor)
    | ReadHistory(e: Editor, fault: Fault)
    | PutHistory(e: Editor, fault: Fault)
    | RevertReread(e: Editor)
    | PutLive(e: Editor, fault: Fault)

  /** What the API server shares between editors. */
  datatype Shared = Shared(live: Live, history: History, clock: nat, log: seq<Snapshot>, versions: map<nat, Data>)

  function SharedOf(s: State): Shared {
    Shared(s.live, s.history, s.clock, s.log, s.versions)
  }

  function PcOf(s: State, e: Editor): Pc {
    if e in s.pcs then s.pcs[e] else Idle
  }

  function At(s: State, e: Editor, pc: Pc): State {
    s.(pcs := s.pcs[e := pc])
  }

  /** replace_configmap refuses a base that is not what the object holds; an empty
      base stands for an object that does not exist yet. */
  predicate HistoryAccepts(h: History, base: Base) {
    if h.Absent? then base.NoBase? else base == AtRv(h.rv)
  }

  /** The same for the live object, which exists. */
  predicate LiveAccepts(live: Live, base: Base) {
    base == AtRv(live.rv)
  }

  function Step(s: State, a: Action): State {
    match a
    case Open(e, key) =>
      if PcOf(s, e).Idle? && key in s.live.data then At(s, e, FormOpen(s.live.rv, s.live.data, key)) else s
    case SubmitSave(e, text, valid, based) =>
      var pc := PcOf(s, e);
      if !pc.FormOpen? then s
      else if pc.key !in s.live.data || !valid || text == s.live.data[pc.key] then At(s, e, Idle)
      else
        var base := if based then AtRv(pc.formRv) else NoBase;
        At(s, e, HaveLive(Edit(base, pc.seen, pc.key, text), s.live.data, s.live.rv))
    case SubmitReactor(e, key, text) =>
      if PcOf(s, e).Idle? && key in s.live.data && text != s.live.data[key]
      then At(s, e, HaveLive(Edit(AtRv(s.live.rv), s.live.data, key, text), s.live.data, s.live.rv)) else s
    case StartRevert(e) =>
      if PcOf(s, e).Idle? && s.history.Stored? && s.history.list != []
      then At(s, e, RevertTarget(s.history.list[|s.history.list| - 1].data)) else s
    case RevertReadLive(e) =>
      var pc := PcOf(s, e);
      if pc.RevertTarget? then At(s, e, HaveLive(Restore(pc.target), s.live.data, s.live.rv)) else s
    case ReadHistory(e, fault) =>
      var pc := PcOf(s, e);
      if !pc.HaveLive? && !pc.MustReread? then s
      else if fault != Fine || s.history.Unreadable? then At(s, e, Idle)
      else
        var list := if s.history.Absent? then [] else s.history.list;
        var base := if s.history.Absent? then NoBase else AtRv(s.history.rv);
        At(s, e, HaveHistory(pc.intent, pc.data, pc.revision, list, base, pc.MustReread?))
    case PutHistory(e, fault) =>
      var pc := PcOf(s, e);
      if !pc.HaveHistory? then s
      else if fault == Refused then At(s, e, Idle)
      else if !HistoryAccepts(s.history, pc.base) then
        At(s, e, if pc.retried then Idle else MustReread(pc.intent, pc.data, pc.revision))
      else
        var entry := Snapshot(pc.revision, pc.data);
        var stored := Stored(s.clock + 1, Newest(pc.revisions + [entry]));
        var next := if fault == ResponseLost then Idle else Snapshotted(pc.intent, pc.data, pc.revision);
        At(s.(history := stored, clock := s.clock + 1, log := s.log + [entry]), e, next)
    case RevertReread(e) =>
      var pc := PcOf(s, e);
      if pc.Snapshotted? && pc.intent.Restore? then At(s, e, RevertReady(pc.intent.target, s.live.rv)) else s
    case PutLive(e, fault) =>
      var pc := PcOf(s, e);
      if !(pc.RevertReady? || (pc.Snapshotted? && pc.intent.Edit?)) then s
      else
        var intent := if pc.RevertReady? then Restore(pc.target) else pc.intent;
        var base := if pc.RevertReady? then AtRv(pc.current) else pc.intent.base;
        var data := if pc.RevertReady? then pc.target else pc.data[pc.intent.key := pc.intent.text];
        if fault == Refused || !LiveAccepts(s.live, base) then At(s, e, Idle)
        else
          var after := Live(s.clock + 1, data);
          At(s.(live := after, clock := s.clock + 1,
                writes := s.writes + [Write(intent, s.live, after, |s.log|)],
                versions := s.versions[s.clock + 1 := data]), e, Idle)
  }

  function Run(s: State, acts: seq<Action>): State
    decreases acts
  {
    if acts == [] then s else Run(Step(s, acts[0]), acts[1..])
  }

  /** All editors idle, history absent, unreadable, or a list within the cap. */
  predicate Initial(s: State) {
    && s.pcs == map[] && s.writes == [] && s.versions == map[s.live.rv := s.live.data]
    && s.live.rv <= s.clock
    && match s.history
       case Absent => s.log == []
       case Stored(rv, list) => rv <= s.clock && |list| <= HISTORY_LIMIT && s.log == list
       case Unreadable(rv) => rv <= s.clock && s.log == []
  }

  // ------------------------------------------------------------------- the invariant

  /** rv is a version the live object had, no newer than now, with this data. */
  predicate WasLive(s: State, rv: nat, data: Data) {
    rv in s.versions && s.versions[rv] == data && rv <= s.live.rv
  }

  /** Some snapshot of the log holds this data. */
  predicate InLog(log: seq<Snapshot>, data: Data) {
    exists k :: 0 <= k < |log| && log[k].data == data
  }

  lemma StillInLog(a: seq<Snapshot>, b: seq<Snapshot>, data: Data)
    requires InLog(a, data) && a <= b
    ensures InLog(b, data)
  {
    var k :| 0 <= k < |a| && a[k].data == data;
    assert b[k] == a[k];
  }

  predicate IntentOk(s: State, intent: Intent, revision: nat) {
    if intent.Restore? then InLog(s.log, intent.target)
    else intent.base.AtRv? ==> WasLive(s, intent.base.rv, intent.seen) && intent.base.rv <= revision
  }

  /** An edit gives one of the keys of data another text. */
  predicate Alters(intent: Intent, data: Data) {
    intent.Edit? ==> intent.key in data && intent.text != data[intent.key]
  }

  predicate PcOk(s: State, pc: Pc) {
    match pc
    case FormOpen(base, seen, key) => WasLive(s, base, seen) && key in seen
    case HaveLive(intent, data, revision) =>
      WasLive(s, revision, data) && IntentOk(s, intent, revision) && Alters(intent, data)
    case MustReread(intent, data, revision) =>
      WasLive(s, revision, data) && IntentOk(s, intent, revision) && Alters(intent, data)
    case HaveHistory(intent, data, revision, revisions, base, retried) =>
      && WasLive(s, revision, data) && IntentOk(s, intent, revision) && Alters(intent, data)
      && !s.history.Unreadable?
      && (base.NoBase? ==> revisions == [])
      && (base.AtRv? ==> base.rv <= s.clock && s.history.Stored?)
      && (base.AtRv? && base.rv == s.history.rv ==> revisions == s.history.list)
    case Snapshotted(intent, data, revision) =>
      && WasLive(s, revision, data) && IntentOk(s, intent, revision) && Alters(intent, data)
      && Snapshot(revision, data) in s.log
    case RevertTarget(target) => InLog(s.log, target)
    case RevertReady(target, _) => InLog(s.log, target)
    case Idle => true
  }

  /** What a recorded write must satisfy: an edit replaced the very version its form
      was read at, changed that one key to another text, and that version was in the log before. */
  predicate WriteOk(s: State, w: Write) {
    && 0 < w.logged <= |s.log|
    && (w.intent.Edit? ==>
          && w.intent.base == AtRv(w.before.rv) && w.before.data == w.intent.seen
          && w.intent.key in w.before.data && w.intent.text != w.before.data[w.intent.key]
          && w.after.data == w.before.data[w.intent.key := w.intent.text]
          && Snapshot(w.before.rv, w.before.data) in s.log[..w.logged])
    && (w.intent.Restore? ==> w.after.data == w.intent.target && InLog(s.log[..w.logged], w.intent.target))
  }

  predicate Inv(s: State) {
    && WasLive(s, s.live.rv, s.live.data) && s.live.rv <= s.clock
    && (forall rv :: rv in s.versions ==> rv <= s.live.rv)
    && (s.history.Absent? ==> s.log == [])
    && (s.history.Stored? ==> s.history.rv <= s.clock && s.history.list == Newest(s.log))
    && (s.history.Unreadable? ==> s.history.rv <= s.clock && s.log == [])
    && (forall e :: e in s.pcs ==> PcOk(s, s.pcs[e]))
    && (forall k :: 0 <= k < |s.writes| ==> WriteOk(s, s.writes[k]))
  }

  /** The facts about one position carry over to a state with the same or a longer
      past. */
  lemma PcCarries(s: State, t: State, pc: Pc)
    requires PcOk(s, pc) && s.clock <= t.clock && s.live.rv <= t.live.rv
    requires forall rv :: rv in s.versions ==> rv in t.versions && t.versions[rv] == s.versions[rv]
    requires s.log <= t.log
    requires t.history == s.history || (t.history.Stored? && t.history.rv == s.clock + 1 && !s.history.Unreadable?)
    ensures PcOk(t, pc)
  {
    if pc.RevertTarget? || pc.RevertReady? { StillInLog(s.log, t.log, pc.target); }
    if !pc.Idle? && !pc.FormOpen? && !pc.RevertTarget? && !pc.RevertReady? && pc.intent.Restore? {
      StillInLog(s.log, t.log, pc.intent.target);
    }
    if pc.Snapshotted? {
      var k :| 0 <= k < |s.log| && s.log[k] == Snapshot(pc.revision, pc.data);
      assert t.log[k] == s.log[k];
    }
  }

  lemma WriteCarries(s: State, t: State, w: Write)
    requires WriteOk(s, w) && s.log <= t.log
    ensures WriteOk(t, w)
  {
    assert t.log[..w.logged] == s.log[..w.logged];
  }

  /** Moving one editor, with nothing else changed. */
  lemma MoveKeepsInv(s: State, e: Editor, pc: Pc)
    requires Inv(s) && PcOk(s, pc)
    ensures Inv(At(s, e, pc))
  {
    var t := At(s, e, pc);
    forall f | f in t.pcs ensures PcOk(t, t.pcs[f]) {
      PcCarries(s, t, if f == e then pc else s.pcs[f]);
    }
    forall k | 0 <= k < |t.writes| ensures WriteOk(t, t.writes[k]) { WriteCarries(s, t, s.writes[k]); }
  }

  lemma PutHistoryKeepsInv(s: State, e: Editor, fault: Fault)
    requires Inv(s)
    ensures Inv(Step(s, PutHistory(e, fault)))
  {
    var t, pc := Step(s, PutHistory(e, fault)), PcOf(s, e);
    if t.log == s.log {
      if pc.HaveHistory? { MoveKeepsInv(s, e, PcOf(t, e)); }
    } else {
      var entry := Snapshot(pc.revision, pc.data);
      assert pc.revisions == Newest(s.log);
      NewestOfNewest(s.log, entry);
      assert entry in t.log;
      assert s.log <= t.log;
      forall f | f in t.pcs ensures PcOk(t, t.pcs[f]) {
        if f != e { PcCarries(s, t, s.pcs[f]); }
      }
      forall k | 0 <= k < |t.writes| ensures WriteOk(t, t.writes[k]) { WriteCarries(s, t, s.writes[k]); }
    }
  }

  lemma PutLiveKeepsInv(s: State, e: Editor, fault: Fault)
    requires Inv(s)
    ensures Inv(Step(s, PutLive(e, fault)))
  {
    var t, pc := Step(s, PutLive(e, fault)), PcOf(s, e);
    if t.writes == s.writes {
      if t != s { MoveKeepsInv(s, e, Idle); }
    } else {
      forall f | f in t.pcs ensures PcOk(t, t.pcs[f]) {
        if f != e { PcCarries(s, t, s.pcs[f]); }
      }
      var n := |s.writes|;
      assert t.writes[n].before == s.live;
      if t.writes[n].intent.Edit? {
        assert pc.revision == pc.intent.base.rv == s.live.rv;
        assert Snapshot(s.live.rv, s.live.data) in s.log;
      }
      assert s.log[..|s.log|] == s.log;
      assert WriteOk(t, t.writes[n]);
      forall k | 0 <= k < |t.writes| ensures WriteOk(t, t.writes[k]) {
        if k < n { WriteCarries(s, t, s.writes[k]); }
      }
    }
  }

  lemma StepKeepsInv(s: State, a: Action)
    requires Inv(s)
    ensures Inv(Step(s, a))
  {
    match a
    case PutHistory(e, fault) => PutHistoryKeepsInv(s, e, fault);
    case PutLive(e, fault) => PutLiveKeepsInv(s, e, fault);
    case _ =>
      var t := Step(s, a);
      if t != s {
        assert PcOk(s, PcOf(t, a.e)) by { MovesAreOk(s, a); }
        MoveKeepsInv(s, a.e, PcOf(t, a.e));
      }
  }

  /** Where a reading step leads is a position in order. */
  lemma MovesAreOk(s: State, a: Action)
    requires Inv(s) && !a.PutHistory? && !a.PutLive?
    ensures Step(s, a) != s ==> Step(s, a) == At(s, a.e, PcOf(Step(s, a), a.e)) && PcOk(s, PcOf(Step(s, a), a.e))
  {
    if a.e in s.pcs { assert PcOk(s, s.pcs[a.e]); }
  }

  lemma {:induction false} RunKeepsInv(s: State, acts: seq<Action>)
    requires Inv(s)
    ensures Inv(Run(s, acts))
    decreases acts
  {
    if acts != [] {
      StepKeepsInv(s, acts[0]);
      RunKeepsInv(Step(s, acts[0]), acts[1..]);
    }
  }

  lemma InitialIsInv(s: State)
    requires Initial(s)
    ensures Inv(s)
  {
  }

  // --------------------------------------------------------------------- the theorems

  /** In every interleaving of editors, with any calls failing: each edit that took
      effect replaced exactly the version its form was read at, changed its one key
      and nothing else, and that version had reached the history before. In particular
      none took effect that was posted without its base version. */
  lemma EverySaveIsExact(s: State, acts: seq<Action>, k: nat)
    requires Initial(s) && k < |Run(s, acts).writes| && Run(s, acts).writes[k].intent.Edit?
    ensures var w := Run(s, acts).writes[k];
            && w.intent.base == AtRv(w.before.rv) && w.before.data == w.intent.seen
            && w.intent.key in w.before.data && w.intent.text != w.before.data[w.intent.key]
            && w.after.data == w.before.data[w.intent.key := w.intent.text]
            && w.logged <= |Run(s, acts).log|
            && Snapshot(w.before.rv, w.before.data) in Run(s, acts).log[..w.logged]
  {
    InitialIsInv(s);
    RunKeepsInv(s, acts);
    assert WriteOk(Run(s, acts), Run(s, acts).writes[k]);
  }

  /** And each revert that took effect put back the data of a snapshot that had reached
      the history before. */
  lemma EveryRevertIsExact(s: State, acts: seq<Action>, k: nat)
    requires Initial(s) && k < |Run(s, acts).writes| && Run(s, acts).writes[k].intent.Restore?
    ensures var w, log := Run(s, acts).writes[k], Run(s, acts).log;
            && w.after.data == w.intent.target && w.logged <= |log|
            && exists i :: 0 <= i < w.logged && log[i].data == w.after.data
  {
    InitialIsInv(s);
    RunKeepsInv(s, acts);
    var t := Run(s, acts);
    assert WriteOk(t, t.writes[k]);
    var front := t.log[..t.writes[k].logged];
    var i :| 0 <= i < |front| && front[i].data == t.writes[k].intent.target;
    assert t.log[i] == front[i];
  }

  /** The stored history is always the newest twenty snapshots that reached it, in
      order; an unreadable one is never written and stops every live write. */
  lemma HistoryIsTheNewest(s: State, acts: seq<Action>)
    requires Initial(s)
    ensures var t := Run(s, acts);
            && (t.history.Stored? ==> t.history.list == Newest(t.log))
            && (t.history.Absent? ==> t.log == [])
            && (t.history.Unreadable? ==> t.log == [] && t.writes == [])
  {
    InitialIsInv(s);
    RunKeepsInv(s, acts);
    var t := Run(s, acts);
    if t.writes != [] { assert WriteOk(t, t.writes[0]); }
  }

  /** The live object before the k-th write. */
  function Before(start: Live, writes: seq<Write>, k: nat): Live
    requires k <= |writes|
  {
    if k == 0 then start else writes[k - 1].after
  }

  /** The writes form one chain from start to the live object, at growing versions. */
  predicate Chained(start: Live, s: State) {
    && s.live.rv <= s.clock
    && s.live == Before(start, s.writes, |s.writes|)
    && forall k :: 0 <= k < |s.writes| ==>
         s.writes[k].before == Before(start, s.writes, k) && s.writes[k].before.rv < s.writes[k].after.rv
  }

  /** A step leaves the live object alone, or replaces it and records that. */
  lemma StepWrites(s: State, a: Action)
    requires s.live.rv <= s.clock
    ensures var t := Step(s, a);
            && t.live.rv <= t.clock
            && ((t.writes == s.writes && t.live == s.live)
                || (|t.writes| == |s.writes| + 1 && t.writes[..|s.writes|] == s.writes
                    && t.writes[|s.writes|].before == s.live && t.writes[|s.writes|].after == t.live
                    && s.live.rv < t.live.rv))
  {
  }

  lemma StepChains(start: Live, s: State, a: Action)
    requires Chained(start, s)
    ensures Chained(start, Step(s, a))
  {
    hide Step;
    var t := Step(s, a);
    StepWrites(s, a);
    if t.writes != s.writes {
      forall k | 0 <= k < |t.writes|
        ensures t.writes[k].before == Before(start, t.writes, k) && t.writes[k].before.rv < t.writes[k].after.rv
      {
        assert k < |s.writes| ==> t.writes[k] == t.writes[..|s.writes|][k];
        assert k > 0 ==> t.writes[k - 1] == t.writes[..|s.writes|][k - 1];
      }
    }
  }

  lemma {:induction false} RunChains(start: Live, s: State, acts: seq<Action>)
    requires Chained(start, s)
    ensures Chained(start, Run(s, acts))
    decreases acts
  {
    if acts != [] {
      StepChains(start, s, acts[0]);
      RunChains(start, Step(s, acts[0]), acts[1..]);
    }
  }

  lemma {:induction false} VersionsGrow(start: Live, s: State, i: nat, j: nat)
    requires Chained(start, s) && i < j <= |s.writes|
    ensures s.writes[i].before.rv < Before(start, s.writes, j).rv
  {
    hide Chained, Before;
    LinkAt(start, s, j - 1);
    if j > i + 1 { VersionsGrow(start, s, i, j - 1); }
  }

  lemma LinkAt(start: Live, s: State, k: nat)
    requires Chained(start, s) && k < |s.writes|
    ensures s.writes[k].before == Before(start, s.writes, k)
    ensures s.writes[k].before.rv < Before(start, s.writes, k + 1).rv
  {
  }

  /** No update is lost: the live object is what the chain of writes made of the
      first one, and two edits read at one version never both take effect. */
  lemma NoLostUpdate(s: State, acts: seq<Action>, i: nat, j: nat)
    requires Initial(s)
    requires var ws := Run(s, acts).writes; i < j < |ws| && ws[i].intent.Edit? && ws[j].intent.Edit?
    ensures var ws := Run(s, acts).writes;
            ws[i].intent.base.AtRv? && ws[j].intent.base.AtRv? && ws[i].intent.base.rv < ws[j].intent.base.rv
    ensures Chained(s.live, Run(s, acts))
  {
    RunChains(s.live, s, acts);
    EverySaveIsExact(s, acts, i);
    EverySaveIsExact(s, acts, j);
    VersionsGrow(s.live, Run(s, acts), i, j);
  }

  // ---------------------------------------------------------------- what takes effect

  /** The calls of an edit after its text was accepted, every one answered. */
  function CarriedOut(s: State, e: Editor): State {
    Step(Step(Step(s, ReadHistory(e, Fine)), PutHistory(e, Fine)), PutLive(e, Fine))
  }

  /** An edit at the live version, with nobody else at work and a readable history,
      changes its one key and makes the object it replaced the newest snapshot; at
      another version or without one, only the snapshot is taken. */
  lemma EditLands(s: State, e: Editor)
    requires PcOf(s, e).HaveLive? && PcOf(s, e).intent.Edit?
    ensures var pc, t := PcOf(s, e), CarriedOut(s, e);
            && PcOf(t, e).Idle?
            && (s.history.Unreadable? ==> t.live == s.live && t.history == s.history)
            && (!s.history.Unreadable? ==>
                  && t.history.Stored?
                  && t.history.list == Newest((if s.history.Absent? then [] else s.history.list)
                                              + [Snapshot(pc.revision, pc.data)])
                  && if pc.intent.base != AtRv(s.live.rv) then t.live == s.live
                     else && t.live.data == pc.data[pc.intent.key := pc.intent.text]
                          && t.live.rv > s.clock)
  {
    var s1 := Step(s, ReadHistory(e, Fine));
    if !s.history.Unreadable? {
      assert PcOf(s1, e).HaveHistory? && HistoryAccepts(s1.history, PcOf(s1, e).base);
      var s2 := Step(s1, PutHistory(e, Fine));
      assert PcOf(s2, e).Snapshotted? && s2.live == s.live;
    } else {
      assert PcOf(s1, e).Idle? && Step(s1, PutHistory(e, Fine)) == s1;
    }
  }

  /** The write that ends an edit or a revert takes effect exactly when the live object
      is still at the version it names: the form's for an edit, the one read last for
      a revert. */
  lemma LandsAtItsVersion(s: State, e: Editor)
    ensures var pc, t := PcOf(s, e), Step(s, PutLive(e, Fine));
            && (pc.RevertReady? ==>
                  t.live == if pc.current == s.live.rv then Live(s.clock + 1, pc.target) else s.live)
            && (pc.Snapshotted? && pc.intent.Edit? ==>
                  t.live == if pc.intent.base == AtRv(s.live.rv)
                            then Live(s.clock + 1, pc.data[pc.intent.key := pc.intent.text]) else s.live)
            && (!pc.RevertReady? && !pc.Snapshotted? ==> t == s)
  {
  }

  /** A lone save, from opening the form on. It takes effect exactly when the key is
      there, the text is another and valid, the form is posted with its version, and
      the history can be read. */
  lemma SaveTakesEffect(s: State, e: Editor, key: string, text: string, valid: bool, based: bool)
    requires PcOf(s, e).Idle?
    ensures var t := CarriedOut(Step(Step(s, Open(e, key)), SubmitSave(e, text, valid, based)), e);
            var accepted := key in s.live.data && text != s.live.data[key] && valid && !s.history.Unreadable?;
            && PcOf(t, e).Idle?
            && (if accepted && based then t.live.data == s.live.data[key := text] && t.live.rv > s.clock
                else t.live == s.live)
            && (if accepted then
                  && t.history.Stored?
                  && t.history.list == Newest((if s.history.Absent? then [] else s.history.list)
                                              + [Snapshot(s.live.rv, s.live.data)])
                else t.history == s.history)
  {
    var s2 := Step(Step(s, Open(e, key)), SubmitSave(e, text, valid, based));
    if PcOf(s2, e).HaveLive? {
      assert PcOf(s2, e)
          == HaveLive(Edit(if based then AtRv(s.live.rv) else NoBase, s.live.data, key, text), s.live.data, s.live.rv);
      assert s2.live == s.live && s2.history == s.history && s2.clock == s.clock;
      EditLands(s2, e);
    } else {
      IdleStays(s2, e);
    }
  }

  /** The same of a reactor written by the console itself. */
  lemma ReactorTakesEffect(s: State, e: Editor, key: string, text: string)
    requires PcOf(s, e).Idle?
    ensures var t := CarriedOut(Step(s, SubmitReactor(e, key, text)), e);
            if key in s.live.data && text != s.live.data[key] && !s.history.Unreadable? then
              && t.live.data == s.live.data[key := text] && t.live.rv > s.clock
              && t.history.Stored?
              && t.history.list == Newest((if s.history.Absent? then [] else s.history.list)
                                          + [Snapshot(s.live.rv, s.live.data)])
            else t.live == s.live && t.history == s.history
  {
    var s1 := Step(s, SubmitReactor(e, key, text));
    if PcOf(s1, e).HaveLive? {
      assert PcOf(s1, e) == HaveLive(Edit(AtRv(s.live.rv), s.live.data, key, text), s.live.data, s.live.rv);
      assert s1.live == s.live && s1.history == s.history && s1.clock == s.clock;
      EditLands(s1, e);
    } else {
      IdleStays(s1, e);
    }
  }

  lemma IdleStays(s: State, e: Editor)
    requires PcOf(s, e).Idle?
    ensures CarriedOut(s, e) == s
  {
  }

  /** A snapshot that meets another's is tried once more on the new list, and then
      succeeds unless it meets a third; after that the edit or revert is given up with
      the live object untouched. */
  lemma SnapshotIsRetriedOnce(s: State, e: Editor)
    requires PcOf(s, e).HaveHistory? && s.history.Stored? && PcOf(s, e).base != AtRv(s.history.rv)
    ensures var pc, t := PcOf(s, e), Step(s, PutHistory(e, Fine));
            && SharedOf(t) == SharedOf(s)
            && (pc.retried ==> PcOf(t, e).Idle?)
            && (!pc.retried ==>
                  var u := Step(Step(t, ReadHistory(e, Fine)), PutHistory(e, Fine));
                  && PcOf(u, e) == Snapshotted(pc.intent, pc.data, pc.revision)
                  && u.live == s.live && u.history.Stored?
                  && u.history.list == Newest(s.history.list + [Snapshot(pc.revision, pc.data)])
                  && PcOf(Step(t, ReadHistory(e, Fine)), e).retried)
  {
    var t := Step(s, PutHistory(e, Fine));
    if !PcOf(s, e).retried {
      var u := Step(t, ReadHistory(e, Fine));
      assert PcOf(u, e).HaveHistory? && HistoryAccepts(u.history, PcOf(u, e).base);
    }
  }

  /** A refused call changes nothing shared, a lost response hides a change that was
      made, and either ends the editor's work. */
  lemma FaultsMean(s: State, e: Editor, fault: Fault, a: Action)
    requires fault != Fine && a in {PutHistory(e, fault), PutLive(e, fault)}
    ensures var fine := if a.PutHistory? then PutHistory(e, Fine) else PutLive(e, Fine);
            SharedOf(Step(s, a)) == if fault == Refused then SharedOf(s) else SharedOf(Step(s, fine))
    ensures a.PutHistory? && PcOf(s, e).HaveHistory? && SharedOf(Step(s, a)) != SharedOf(s) ==>
              PcOf(Step(s, a), e).Idle?
    ensures a.PutLive? && PcOf(s, e).RevertReady? ==> PcOf(Step(s, a), e).Idle?
  {
  }

  // ------------------------------------------------------------------------- reverts

  /** One revert with nobody else at work and every call answered. */
  function RevertAlone(s: State, e: Editor): State {
    Step(Step(Step(Step(Step(Step(s, StartRevert(e)), RevertReadLive(e)), ReadHistory(e, Fine)),
         PutHistory(e, Fine)), RevertReread(e)), PutLive(e, Fine))
  }

  /** A lone revert puts back the newest snapshot's data and makes what it replaced
      the newest snapshot; without a snapshot to go back to, nothing changes. */
  lemma RevertRestores(s: State, e: Editor)
    requires PcOf(s, e).Idle?
    ensures var t := RevertAlone(s, e);
            if s.history.Stored? && s.history.list != [] then
              && t.live.data == s.history.list[|s.history.list| - 1].data && t.live.rv > s.clock
              && t.history.Stored?
              && t.history.list == Newest(s.history.list + [Snapshot(s.live.rv, s.live.data)])
              && PcOf(t, e).Idle?
            else t == s
  {
    if !s.history.Stored? || s.history.list == [] { return; }
    var s1 := Step(s, StartRevert(e));
    var s2 := Step(s1, RevertReadLive(e));
    var s3 := Step(s2, ReadHistory(e, Fine));
    assert PcOf(s3, e).HaveHistory? && HistoryAccepts(s3.history, PcOf(s3, e).base);
    var s4 := Step(s3, PutHistory(e, Fine));
    assert PcOf(s4, e).Snapshotted?;
    var s5 := Step(s4, RevertReread(e));
    assert PcOf(s5, e) == RevertReady(s.history.list[|s.history.list| - 1].data, s.live.rv);
  }

  /** A revert is undone by a revert: run one after the other, two of them restore
      the live data. */
  lemma TwoRevertsRestore(s: State, e: Editor, f: Editor)
    requires PcOf(s, e).Idle? && PcOf(s, f).Idle? && s.history.Stored? && s.history.list != []
    ensures RevertAlone(RevertAlone(s, e), f).live.data == s.live.data
  {
    RevertRestores(s, e);
    var t := RevertAlone(s, e);
    assert PcOf(t, f).Idle?;
    var entry := Snapshot(s.live.rv, s.live.data);
    assert t.history.list[|t.history.list| - 1] == entry;
    RevertRestores(t, f);
  }

  // ------------------------------------------------- the editors' code, interrupted

  predicate Sane(h: Shared) {
    && h.live.rv in h.versions && h.versions[h.live.rv] == h.live.data && h.live.rv <= h.clock
    && (forall rv :: rv in h.versions ==> rv <= h.clock)
    && (h.history.Absent? ==> h.log == [])
    && (h.history.Stored? ==> h.history.rv <= h.clock && h.history.list == Newest(h.log))
    && (h.history.Unreadable? ==> h.history.rv <= h.clock)
  }

  /** What any number of other editors' calls can do between two of one's own. */
  predicate Rely(a: Shared, b: Shared) {
    && a.clock <= b.clock && a.live.rv <= b.live.rv
    && (b.live.rv == a.live.rv ==> b.live == a.live)
    && (forall rv :: rv in a.versions ==> rv in b.versions && b.versions[rv] == a.versions[rv])
    && a.log <= b.log
    && (b.history == a.history
        || (b.history.Stored? && b.history.rv > a.clock && !a.history.Unreadable? && |b.log| > |a.log|))
  }

  lemma RelyReflexive(a: Shared)
    ensures Rely(a, a)
  {
  }

  lemma RelyTransitive(a: Shared, b: Shared, c: Shared)
    requires Rely(a, b) && Rely(b, c)
    ensures Rely(a, c)
  {
  }

  /** Every step of every editor is such interference. */
  lemma StepIsRely(s: State, a: Action)
    requires Inv(s)
    ensures Rely(SharedOf(s), SharedOf(Step(s, a))) && Sane(SharedOf(Step(s, a)))
  {
    hide WriteOk;
    StepKeepsInv(s, a);
    if a.PutHistory? && a.e in s.pcs { assert PcOk(s, s.pcs[a.e]); }
  }

  datatype Reply = Ok | Conflict | Failed

  /** The two objects behind the API, with the histories that say what happened. */
  class ApiServer {
    var live: Live
    var history: History
    var clock: nat
    ghost var log: seq<Snapshot>
    ghost var versions: map<nat, Data>

    constructor (live: Live, history: History, clock: nat)
      requires live.rv <= clock && (history.Stored? ==> |history.list| <= HISTORY_LIMIT)
      requires !history.Absent? ==> history.rv <= clock
      ensures this.live == live && this.history == history && Sane(Now())
    {
      this.live, this.history, this.clock := live, history, clock;
      log := if history.Stored? then history.list else [];
      versions := map[live.rv := live.data];
    }

    ghost function Now(): Shared
      reads this
    {
      Shared(live, history, clock, log, versions)
    }

    /** Whatever other editors do between two calls. */
    method Interfere(ghost since: Shared)
      requires Sane(Now()) && Rely(since, Now())
      modifies this
      ensures Sane(Now()) && Rely(since, Now())
      ensures Rely(old(Now()), Now())
    {
    }

    /** replace_configmap on the history object. */
    method ReplaceHistory(list: seq<Snapshot>, base: Base, fault: Fault, ghost since: Shared) returns (reply: Reply)
      requires Sane(Now()) && Rely(since, Now()) && list != []
      requires HistoryAccepts(history, base) ==> !history.Unreadable? && list == Newest(log + [list[|list| - 1]])
      modifies this`history, this`clock, this`log
      ensures Sane(Now()) && Rely(since, Now())
      ensures reply == if fault == Refused then Failed else if !HistoryAccepts(old(history), base) then Conflict
                       else if fault == ResponseLost then Failed else Ok
      ensures if fault == Refused || !HistoryAccepts(old(history), base) then Now() == old(Now())
              else && log == old(log) + [list[|list| - 1]]
                   && clock == old(clock) + 1 && history == Stored(clock, list)
    {
      if fault == Refused { return Failed; }
      if !HistoryAccepts(history, base) { return Conflict; }
      clock := clock + 1;
      history := Stored(clock, list);
      log := log + [list[|list| - 1]];
      RelyTransitive(since, old(Now()), Now());
      reply := if fault == ResponseLost then Failed else Ok;
    }

    /** replace_configmap on the live object. */
    method ReplaceLive(data: Data, base: Base, fault: Fault) returns (reply: Reply)
      requires Sane(Now())
      modifies this`live, this`clock, this`versions
      ensures Sane(Now()) && Rely(old(Now()), Now())
      ensures reply == if fault == Refused then Failed else if !LiveAccepts(old(live), base) then Conflict
                       else if fault == ResponseLost then Failed else Ok
      ensures if fault == Refused || !LiveAccepts(old(live), base) then Now() == old(Now())
              else clock == old(clock) + 1 && live == Live(clock, data)
    {
      if fault == Refused { return Failed; }
      if !LiveAccepts(live, base) { return Conflict; }
      clock := clock + 1;
      live := Live(clock, data);
      versions := versions[clock := data];
      reply := if fault == ResponseLost then Failed else Ok;
    }

    /** _read_history: None when it is unreadable. */
    method ReadHistory() returns (readable: bool, list: seq<Snapshot>, base: Base)
      ensures readable <==> !history.Unreadable?
      ensures readable ==> list == (if history.Absent? then [] else history.list)
                           && base == (if history.Absent? then NoBase else AtRv(history.rv))
    {
      match history
      case Absent => return true, [], NoBase;
      case Stored(rv, l) => return true, l, AtRv(rv);
      case Unreadable(_) => return false, [], NoBase;
    }
  }

  /** A list read earlier is still the stored one wherever its base is still good, and
      where it is not, somebody else has added a snapshot since. */
  lemma StillCurrent(a: Shared, b: Shared, list: seq<Snapshot>, base: Base, entry: Snapshot)
    requires Sane(a) && Sane(b) && Rely(a, b) && !a.history.Unreadable?
    requires list == if a.history.Absent? then [] else a.history.list
    requires base == if a.history.Absent? then NoBase else AtRv(a.history.rv)
    ensures HistoryAccepts(b.history, base) ==>
            !b.history.Unreadable? && Newest(list + [entry]) == Newest(b.log + [entry])
    ensures !HistoryAccepts(b.history, base) ==> |b.log| > |a.log|
    ensures |b.log| >= |a.log|
    ensures Newest(list + [entry]) != [] && Newest(list + [entry])[|Newest(list + [entry])| - 1] == entry
  {
    if HistoryAccepts(b.history, base) {
      assert b.history == a.history;
      NewestOfNewest(b.log, entry);
    }
  }

  /** A version read earlier is still the live one wherever its number is. */
  lemma SameVersion(a: Shared, b: Shared, form: Live)
    requires Sane(a) && Sane(b) && Rely(a, b)
    requires form.rv in a.versions && a.versions[form.rv] == form.data
    ensures b.live.rv == form.rv ==> b.live == form
    ensures form.rv in b.versions && b.versions[form.rv] == form.data
  {
  }

  lemma StillLogged(a: Shared, b: Shared, entry: Snapshot)
    requires Rely(a, b) && entry in a.log
    ensures entry in b.log
  {
    var k :| 0 <= k < |a.log| && a.log[k] == entry;
    assert b.log[k] == entry;
  }

  /** Versions and the log only grow, and no editor makes a readable history
      unreadable. */
  lemma NoOlder(a: Shared, b: Shared)
    requires Rely(a, b)
    ensures a.live.rv <= b.live.rv && |a.log| <= |b.log|
    ensures b.history.Unreadable? ==> a.history.Unreadable?
  {
  }

  /** _snapshot, with other editors at work between its calls: one retry after a
      conflict, then it fails; on success the snapshot is in the history. */
  method SnapshotHistory(api: ApiServer, live: Live, first: Fault, second: Fault, ghost since: Shared)
    returns (ok: bool)
    requires Sane(api.Now()) && Rely(since, api.Now())
    modifies api
    ensures Sane(api.Now()) && Rely(since, api.Now())
    ensures ok ==> |api.log| > |old(api.log)| && api.log[|api.log| - 1] == Snapshot(live.rv, live.data)
    ensures ok || first != Fine || second != Fine || api.history.Unreadable? || |api.log| >= |old(api.log)| + 2
  {
    hide Rely, Sane, HistoryAccepts;
    var entry := Snapshot(live.rv, live.data);
    var reply := TrySnapshot(api, entry, first, since);
    if reply.Conflict? {
      api.Interfere(since);
      reply := TrySnapshot(api, entry, second, since);
    }
    ok := reply.Ok?;
  }

  /** Read the history, append, replace. */
  method TrySnapshot(api: ApiServer, entry: Snapshot, fault: Fault, ghost since: Shared) returns (reply: Reply)
    requires Sane(api.Now()) && Rely(since, api.Now())
    modifies api
    ensures Sane(api.Now()) && Rely(since, api.Now())
    ensures reply.Ok? ==> |api.log| > |old(api.log)| && api.log[|api.log| - 1] == entry
    ensures reply.Conflict? ==> |api.log| > |old(api.log)|
    ensures reply.Failed? ==> fault != Fine || api.history.Unreadable?
    ensures |api.log| >= |old(api.log)|
  {
    hide Rely, Sane, HistoryAccepts, Newest;
    ghost var start := api.Now();
    var readable, list, base := api.ReadHistory();
    if !readable { return Failed; }
    api.Interfere(since);
    StillCurrent(start, api.Now(), list, base, entry);
    reply := api.ReplaceHistory(Newest(list + [entry]), base, fault, since);
  }

  datatype Faults = Faults(read: bool, first: Fault, second: Fault, write: Fault)

  datatype Outcome =
    | Saved | NoSuchKey | TooLarge | NoChange | Invalid | NotSnapshotted | Stale | WriteFailed | ReadFailed

  function OutcomeOf(reply: Reply): Outcome {
    match reply case Ok => Saved case Conflict => Stale case Failed => WriteFailed
  }

  /** save, from the posted form on, with other editors at work between its calls.
      Whenever the live object was replaced, it was the form's own version, with that
      version already in the history, and only the one key changed; on any other
      outcome with an answer the editor itself wrote nothing. The form's own faults are
      found in order, against the object as first read. Once they are ruled out, only a
      failed call, an unreadable history or two others' snapshots in between keep the
      snapshot from being taken, and then only a failed call, a missing base version or
      a live object that has moved on keep the text from being saved. */
  method Save(api: ApiServer, form: Live, based: bool, key: string, text: string, small: bool, valid: bool,
              faults: Faults)
    returns (outcome: Outcome, ghost before: Shared)
    requires Sane(api.Now())
    requires form.rv in api.versions && api.versions[form.rv] == form.data && form.rv <= api.live.rv
    modifies api
    ensures Sane(api.Now()) && Rely(old(api.Now()), before) && Rely(before, api.Now())
    ensures outcome.Saved? || api.live != before.live ==>
              && based && before.live == form
              && Snapshot(form.rv, form.data) in before.log
              && key in form.data && api.live.data == form.data[key := text]
    ensures !outcome.Saved? && !outcome.WriteFailed? ==> api.live == before.live
    ensures outcome.NotSnapshotted? ==>
              || faults.first != Fine || faults.second != Fine
              || old(api.history).Unreadable? || |before.log| >= |old(api.log)| + 2
    ensures outcome.Saved? || outcome.Stale? || outcome.WriteFailed? ==>
              Snapshot(old(api.live).rv, old(api.live).data) in before.log
    ensures outcome.Stale? ==> !based || before.live.rv != form.rv
    ensures outcome.WriteFailed? ==> faults.write != Fine
    ensures var data := old(api.live).data;
            && (outcome.ReadFailed? <==> faults.read)
            && (outcome.NoSuchKey? <==> !faults.read && key !in data)
            && (outcome.TooLarge? <==> !faults.read && key in data && !small)
            && (outcome.NoChange? <==> !faults.read && key in data && small && text == data[key])
            && (outcome.Invalid? <==> !faults.read && key in data && small && text != data[key] && !valid)
    ensures outcome.ReadFailed? || outcome.NoSuchKey? || outcome.TooLarge? || outcome.NoChange? || outcome.Invalid? ==>
              api.Now() == old(api.Now())
  {
    hide Rely, Sane;
    ghost var start := api.Now();
    RelyReflexive(start);
    before := start;
    if faults.read { return ReadFailed, before; }
    var current := api.live;
    if key !in current.data { return NoSuchKey, before; }
    if !small { return TooLarge, before; }
    if text == current.data[key] { return NoChange, before; }
    if !valid { return Invalid, before; }
    api.Interfere(start);
    var ok := SnapshotHistory(api, current, faults.first, faults.second, start);
    before := api.Now();
    RelyReflexive(before);
    NoOlder(start, before);
    if !ok { return NotSnapshotted, before; }
    var reply;
    reply, before := WriteEdit(api, current, form, based, key, text, faults.write, start);
    outcome := OutcomeOf(reply);
  }

  /** The last call of save: replace the live object, made from what was read of it,
      at the version the form was read at. */
  method WriteEdit(api: ApiServer, current: Live, form: Live, based: bool, key: string, text: string, fault: Fault,
                   ghost since: Shared)
    returns (reply: Reply, ghost before: Shared)
    requires Sane(since) && Sane(api.Now()) && Rely(since, api.Now())
    requires form.rv in since.versions && since.versions[form.rv] == form.data && form.rv <= since.live.rv
    requires current == since.live && key in current.data
    requires Snapshot(current.rv, current.data) in api.log
    modifies api
    ensures Sane(api.Now()) && Rely(since, before) && Rely(before, api.Now())
    ensures Snapshot(current.rv, current.data) in before.log
    ensures reply.Ok? || api.live != before.live ==>
              && based && before.live == form == current
              && api.live.data == form.data[key := text]
    ensures reply.Conflict? ==> api.live == before.live && (!based || before.live.rv != form.rv)
    ensures reply.Failed? ==> fault != Fine
  {
    hide Rely, Sane;
    ghost var first := api.Now();
    api.Interfere(since);
    before := api.Now();
    StillLogged(first, before, Snapshot(current.rv, current.data));
    SameVersion(since, before, form);
    NoOlder(since, before);
    if current.rv == form.rv { SameVersionNow(since, form); }
    RelyReflexive(before);
    reply := api.ReplaceLive(current.data[key := text], if based then AtRv(form.rv) else NoBase, fault);
  }

  lemma SameVersionNow(a: Shared, form: Live)
    requires Sane(a) && form.rv in a.versions && a.versions[form.rv] == form.data && a.live.rv == form.rv
    ensures a.live == form
  {
  }

  /** revert, with other editors at work between its calls: what it restores is the
      newest snapshot it read first, and what it read of the live object is in the
      history before the write. */
  method Revert(api: ApiServer, faults: Faults)
    returns (outcome: Outcome, ghost target: Data, ghost read: Live, ghost before: Shared)
    requires Sane(api.Now())
    modifies api
    ensures Sane(api.Now()) && Rely(old(api.Now()), before) && Rely(before, api.Now())
    ensures outcome.Saved? || api.live != before.live ==>
              && old(api.history).Stored? && old(api.history).list != []
              && target == old(api.history).list[|old(api.history).list| - 1].data
              && api.live.data == target
              && Snapshot(read.rv, read.data) in before.log
    ensures !outcome.Saved? && !outcome.WriteFailed? ==> api.live == before.live
    ensures outcome.Saved? || outcome.Stale? || outcome.WriteFailed? || outcome.NotSnapshotted? || outcome.ReadFailed?
    ensures outcome.ReadFailed? <==> faults.read || !old(api.history).Stored? || old(api.history).list == []
    ensures outcome.NotSnapshotted? ==>
              faults.first != Fine || faults.second != Fine || |before.log| >= |old(api.log)| + 2
    ensures outcome.Stale? ==> before.live.rv > read.rv >= old(api.live).rv
    ensures outcome.WriteFailed? ==> faults.write != Fine
  {
    hide Rely, Sane, Newest, HistoryAccepts;
    ghost var start := api.Now();
    RelyReflexive(start);
    before, target, read := start, map[], api.live;
    var readable, list, _ := api.ReadHistory();
    if !readable || list == [] { return ReadFailed, target, read, before; }
    var newest := list[|list| - 1].data;
    target := newest;
    api.Interfere(start);
    before := api.Now();
    RelyReflexive(before);
    if faults.read { return ReadFailed, target, read, before; }
    var current := api.live;
    read := current;
    ghost var atRead := api.Now();
    NoOlder(start, atRead);
    RelyReflexive(atRead);
    api.Interfere(atRead);
    NoOlder(atRead, api.Now());
    var ok := SnapshotHistory(api, current, faults.first, faults.second, atRead);
    before := api.Now();
    NoOlder(atRead, before);
    RelyReflexive(before);
    RelyTransitive(start, atRead, before);
    if !ok { return NotSnapshotted, target, read, before; }
    var reply;
    reply, before := WriteBack(api, newest, faults.write, start, Snapshot(current.rv, current.data));
    outcome := OutcomeOf(reply);
  }

  /** The last two calls of revert: read the live object's revision afresh, replace it
      at that revision. */
  method WriteBack(api: ApiServer, data: Data, fault: Fault, ghost since: Shared, ghost entry: Snapshot)
    returns (reply: Reply, ghost before: Shared)
    requires Sane(api.Now()) && Rely(since, api.Now()) && entry in api.log
    modifies api
    ensures Sane(api.Now()) && Rely(since, before) && Rely(before, api.Now()) && entry in before.log
    ensures reply.Ok? || api.live != before.live ==> api.live.data == data
    ensures reply.Conflict? ==> api.live == before.live && before.live.rv > old(api.live).rv
    ensures reply.Failed? ==> fault != Fine
  {
    hide Rely, Sane, Newest, HistoryAccepts;
    ghost var first := api.Now();
    api.Interfere(since);
    StillLogged(first, api.Now(), entry);
    NoOlder(first, api.Now());
    ghost var second := api.Now();
    var rv := api.live.rv;
    api.Interfere(since);
    StillLogged(second, api.Now(), entry);
    NoOlder(second, api.Now());
    before := api.Now();
    reply := api.ReplaceLive(data, AtRv(rv), fault);
  }
}
