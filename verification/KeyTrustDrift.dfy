/** Key trust when the key directories do not stand still: minions and administrators
    change keys between the reading and the calls made from it, and a wheel accept moves
    every pending id that its match selects. What the calls may then do to the trusted
    pairs, and exactly when they leave them alone. */
module KeyTrustDrift {
  import opened Options
  import opened Text
  import opened KeyTrust
  import opened KeyTrustRuns

  /** selects(j, i): a match of i selects the id j. */
  type Matching = (Id, Id) -> bool

  /** An id selects itself and no other. */
  ghost predicate Literal(selects: Matching) {
    forall i, j :: selects(j, i) <==> i == j
  }

  predicate Waits(fleet: Fleet, p: Pod, i: Id) {
    Look(fleet, p, i).Some? && Look(fleet, p, i).value.tab == Pending
  }

  function FingerAt(fleet: Fleet, p: Pod, i: Id): string
    requires Look(fleet, p, i).Some?
  {
    Look(fleet, p, i).value.key.finger
  }

  // -------------------------------------------------------------------- one accept

  /** key.accept on a pod. */
  function AcceptMatch(fleet: Fleet, p: Pod, id: Id, selects: Matching): Fleet {
    if p !in fleet then fleet
    else
      var moved := map j | j in fleet[p] ::
        if fleet[p][j].tab == Pending && selects(j, id) then Copy(Accepted, fleet[p][j].key) else fleet[p][j];
      fleet[p := moved]
  }

  lemma AcceptMatchLooks(fleet: Fleet, p: Pod, id: Id, selects: Matching, q: Pod, j: Id)
    ensures Look(AcceptMatch(fleet, p, id, selects), q, j)
         == if q == p && Waits(fleet, p, j) && selects(j, id) then Some(Copy(Accepted, Look(fleet, p, j).value.key))
            else Look(fleet, q, j)
  {
  }

  /** Everything the match would move is trusted somewhere under its own fingerprint. */
  ghost predicate SafeAccept(fleet: Fleet, p: Pod, id: Id, selects: Matching) {
    forall j :: Waits(fleet, p, j) && selects(j, id) ==> (j, FingerAt(fleet, p, j)) in TrustedPairs(fleet)
  }

  /** An accept keeps the trusted pairs exactly when it is safe at the time it is made:
      it never takes a pair away, and adds those of the keys it moves. */
  lemma AcceptKeepsExactly(fleet: Fleet, p: Pod, id: Id, selects: Matching)
    ensures TrustedPairs(fleet) <= TrustedPairs(AcceptMatch(fleet, p, id, selects))
    ensures TrustedPairs(AcceptMatch(fleet, p, id, selects)) == TrustedPairs(fleet) <==>
            SafeAccept(fleet, p, id, selects)
  {
    hide AcceptMatch, TrustedPairs, Look;
    var after := AcceptMatch(fleet, p, id, selects);
    forall t | t in TrustedPairs(fleet) ensures t in TrustedPairs(after) {
      var q := TrustedSomewhere(fleet, t);
      AcceptMatchLooks(fleet, p, id, selects, q, t.0);
      TrustedIfHeld(fleet, q, t.0);
      TrustedIfHeld(after, q, t.0);
    }
    if SafeAccept(fleet, p, id, selects) {
      forall t | t in TrustedPairs(after) ensures t in TrustedPairs(fleet) {
        var q := TrustedSomewhere(after, t);
        AcceptMatchLooks(fleet, p, id, selects, q, t.0);
        TrustedIfHeld(fleet, q, t.0);
      }
    } else {
      var j :| Waits(fleet, p, j) && selects(j, id) && (j, FingerAt(fleet, p, j)) !in TrustedPairs(fleet);
      AcceptMatchLooks(fleet, p, id, selects, p, j);
      TrustedIfHeld(after, p, j);
    }
  }

  /** A pod holds an accepted copy of i: its pair is trusted. */
  lemma TrustedIfHeld(fleet: Fleet, p: Pod, i: Id)
    ensures Trusts(fleet, p, i) <==> Look(fleet, p, i).Some? && Look(fleet, p, i).value.tab == Accepted
    ensures Trusts(fleet, p, i) ==> (i, FingerAt(fleet, p, i)) in TrustedPairs(fleet)
  {
    TrustedAt(fleet, p, i);
  }

  // ------------------------------------------------------------------ a plan carried out

  type Pairs = set<(Pod, Id)>

  ghost predicate Within(calls: seq<(Pod, Id)>, plan: Pairs) {
    forall k :: 0 <= k < |calls| ==> calls[k] in plan
  }

  function AfterCalls(fleet: Fleet, calls: seq<(Pod, Id)>, selects: Matching): Fleet
    decreases calls
  {
    if calls == [] then fleet else AfterCalls(AcceptMatch(fleet, calls[0].0, calls[0].1, selects), calls[1..], selects)
  }

  /** Every accept of the plan would be safe now. */
  ghost predicate Sound(fleet: Fleet, plan: Pairs, selects: Matching) {
    forall p, i :: (p, i) in plan ==> SafeAccept(fleet, p, i, selects)
  }

  /** Whichever accepts of the plan are made, in whatever order and number, the trusted
      pairs stay. */
  ghost predicate Harmless(fleet: Fleet, plan: Pairs, selects: Matching) {
    forall calls :: Within(calls, plan) ==> TrustedPairs(AfterCalls(fleet, calls, selects)) == TrustedPairs(fleet)
  }

  /** One safe accept leaves the rest of the plan sound. */
  lemma StaysSound(fleet: Fleet, plan: Pairs, selects: Matching, p: Pod, id: Id)
    requires Sound(fleet, plan, selects) && SafeAccept(fleet, p, id, selects)
    ensures Sound(AcceptMatch(fleet, p, id, selects), plan, selects)
  {
    hide AcceptMatch, TrustedPairs, Look;
    var after := AcceptMatch(fleet, p, id, selects);
    AcceptKeepsExactly(fleet, p, id, selects);
    forall q, i | (q, i) in plan ensures SafeAccept(after, q, i, selects) {
      forall j | Waits(after, q, j) && selects(j, i) ensures (j, FingerAt(after, q, j)) in TrustedPairs(after) {
        AcceptMatchLooks(fleet, p, id, selects, q, j);
        assert SafeAccept(fleet, q, i, selects);
      }
    }
  }

  lemma {:induction false} SoundCallsKeep(fleet: Fleet, calls: seq<(Pod, Id)>, plan: Pairs, selects: Matching)
    requires Sound(fleet, plan, selects) && Within(calls, plan)
    ensures TrustedPairs(AfterCalls(fleet, calls, selects)) == TrustedPairs(fleet)
    decreases calls
  {
    hide AcceptMatch, TrustedPairs, SafeAccept;
    if calls != [] {
      var a := calls[0];
      assert (a.0, a.1) in plan;
      AcceptKeepsExactly(fleet, a.0, a.1, selects);
      StaysSound(fleet, plan, selects, a.0, a.1);
      SoundCallsKeep(AcceptMatch(fleet, a.0, a.1, selects), calls[1..], plan, selects);
    }
  }

  /** From any state of the key directories, whatever happened to them since the reading,
      carrying out a plan is harmless exactly when each of its accepts is safe there. */
  lemma PlanIsHarmlessExactly(fleet: Fleet, plan: Pairs, selects: Matching)
    ensures Harmless(fleet, plan, selects) <==> Sound(fleet, plan, selects)
  {
    hide AcceptMatch, TrustedPairs, SafeAccept;
    if Sound(fleet, plan, selects) {
      forall calls | Within(calls, plan)
        ensures TrustedPairs(AfterCalls(fleet, calls, selects)) == TrustedPairs(fleet)
      {
        SoundCallsKeep(fleet, calls, plan, selects);
      }
    }
    if Harmless(fleet, plan, selects) {
      forall p, i | (p, i) in plan ensures SafeAccept(fleet, p, i, selects) {
        var calls := [(p, i)];
        assert Within(calls, plan);
        OneCall(fleet, p, i, selects);
        AcceptKeepsExactly(fleet, p, i, selects);
      }
    }
  }

  lemma OneCall(fleet: Fleet, p: Pod, i: Id, selects: Matching)
    ensures AfterCalls(fleet, [(p, i)], selects) == AcceptMatch(fleet, p, i, selects)
  {
    assert [(p, i)][1..] == [];
  }

  function Members(plan: seq<(Pod, Id)>): Pairs {
    set a | a in plan
  }

  /** The plan of a reconcile pass is sound in the directories it was read from, for a
      match that is literal. */
  lemma FreshPlanIsSound(fleet: Fleet, clients: seq<Pod>, env: Env, selects: Matching)
    requires Known(fleet, clients) && Literal(selects)
    ensures Sound(fleet, Members(Plan(Views(fleet, clients, env))), selects)
  {
    hide Plan, Views, Barred, TrustedPairs;
    forall p, i | (p, i) in Plan(Views(fleet, clients, env)) ensures SafeAccept(fleet, p, i, selects) {
      PlannedIs(fleet, clients, env, p, i);
      var q :| q in clients && env.reachable(q) && env.fingered(q, i)
               && Trusts(fleet, q, i) && Look(fleet, q, i).value.key.finger == Look(fleet, p, i).value.key.finger;
      TrustedAt(fleet, q, i);
    }
  }

  // ------------------------------------------------------------------------- drift

  /** A change by others that leaves a plan sound: no trusted pair goes, and every key
      still waiting where the plan would move it is the one that waited there before.
      Everything else may change: other keys, new ids, rejections, acceptances. */
  ghost predicate Benign(fleet: Fleet, later: Fleet, plan: Pairs, selects: Matching) {
    && TrustedPairs(fleet) <= TrustedPairs(later)
    && forall p, i, j :: (p, i) in plan && selects(j, i) && Waits(later, p, j) ==>
        Look(later, p, j) == Look(fleet, p, j)
  }

  lemma BenignKeepsSound(fleet: Fleet, later: Fleet, plan: Pairs, selects: Matching)
    requires Sound(fleet, plan, selects) && Benign(fleet, later, plan, selects)
    ensures Sound(later, plan, selects)
  {
    hide TrustedPairs, Look;
    forall p, i | (p, i) in plan ensures SafeAccept(later, p, i, selects) {
      assert SafeAccept(fleet, p, i, selects);
      forall j | Waits(later, p, j) && selects(j, i) ensures (j, FingerAt(later, p, j)) in TrustedPairs(later) {
        assert Look(later, p, j) == Look(fleet, p, j);
      }
    }
  }

  datatype Event = Call(pod: Pod, id: Id) | Drift(to: Fleet)

  function Happens(fleet: Fleet, e: Event, selects: Matching): Fleet {
    match e
    case Call(p, i) => AcceptMatch(fleet, p, i, selects)
    case Drift(to) => to
  }

  function AfterEvents(fleet: Fleet, events: seq<Event>, selects: Matching): Fleet
    decreases events
  {
    if events == [] then fleet
    else Happens(AfterEvents(fleet, events[..|events| - 1], selects), events[|events| - 1], selects)
  }

  /** The calls are of the plan, and the drifts benign where they happen. */
  ghost predicate Tame(fleet: Fleet, events: seq<Event>, plan: Pairs, selects: Matching) {
    forall k :: 0 <= k < |events| ==>
      if events[k].Call? then (events[k].pod, events[k].id) in plan
      else Benign(AfterEvents(fleet, events[..k], selects), events[k].to, plan, selects)
  }

  lemma {:induction false} SoundThroughout(fleet: Fleet, events: seq<Event>, plan: Pairs, selects: Matching, k: nat)
    requires Sound(fleet, plan, selects) && Tame(fleet, events, plan, selects) && k <= |events|
    ensures Sound(AfterEvents(fleet, events[..k], selects), plan, selects)
    decreases k
  {
    hide Sound, Benign, SafeAccept, AcceptMatch;
    if k == 0 {
      assert events[..0] == [];
    } else {
      SoundThroughout(fleet, events, plan, selects, k - 1);
      var before, e := AfterEvents(fleet, events[..k - 1], selects), events[k - 1];
      EventStep(fleet, events, k - 1, selects);
      match e
      case Call(p, i) =>
        PlannedIsSafe(before, plan, selects, p, i);
        StaysSound(before, plan, selects, p, i);
      case Drift(to) =>
        BenignKeepsSound(before, to, plan, selects);
    }
  }

  lemma PlannedIsSafe(fleet: Fleet, plan: Pairs, selects: Matching, p: Pod, i: Id)
    requires Sound(fleet, plan, selects) && (p, i) in plan
    ensures SafeAccept(fleet, p, i, selects)
  {
  }

  lemma EventStep(fleet: Fleet, events: seq<Event>, k: nat, selects: Matching)
    requires k < |events|
    ensures AfterEvents(fleet, events[..k + 1], selects)
         == Happens(AfterEvents(fleet, events[..k], selects), events[k], selects)
  {
    assert events[..k + 1][..k] == events[..k];
  }

  /** Complete trust, never create it, with the directories moving: over any run of
      accepts of a sound plan and benign changes by others, interleaved in any way, no
      accept changes the trusted pairs. */
  lemma DriftingRunKeepsTrust(fleet: Fleet, events: seq<Event>, plan: Pairs, selects: Matching, k: nat)
    requires Sound(fleet, plan, selects) && Tame(fleet, events, plan, selects)
    requires k < |events| && events[k].Call?
    ensures TrustedPairs(AfterEvents(fleet, events[..k + 1], selects))
        == TrustedPairs(AfterEvents(fleet, events[..k], selects))
  {
    hide Sound, AfterEvents, SafeAccept, TrustedPairs, AcceptMatch;
    SoundThroughout(fleet, events, plan, selects, k);
    var before := AfterEvents(fleet, events[..k], selects);
    EventStep(fleet, events, k, selects);
    PlannedIsSafe(before, plan, selects, events[k].pod, events[k].id);
    AcceptKeepsExactly(before, events[k].pod, events[k].id, selects);
  }

  /** A key exchanged while it waits is accepted unseen: the pair it makes was trusted
      nowhere. */
  lemma ExchangedKeyIsAccepted(p: Pod, q: Pod, i: Id, good: Key, other: Key, selects: Matching)
    requires p != q && good.finger != other.finger && Literal(selects)
    ensures var read: Fleet := map[p := map[i := Copy(Pending, good)], q := map[i := Copy(Accepted, good)]];
            var later: Fleet := map[p := map[i := Copy(Pending, other)], q := map[i := Copy(Accepted, good)]];
            && SafeAccept(read, p, i, selects) && !SafeAccept(later, p, i, selects)
            && (i, other.finger) in TrustedPairs(AcceptMatch(later, p, i, selects)) - TrustedPairs(later)
  {
    var read: Fleet := map[p := map[i := Copy(Pending, good)], q := map[i := Copy(Accepted, good)]];
    var later: Fleet := map[p := map[i := Copy(Pending, other)], q := map[i := Copy(Accepted, good)]];
    TrustedAt(read, q, i);
    assert Waits(later, p, i);
    if (i, other.finger) in TrustedPairs(later) {
      var r := TrustedSomewhere(later, (i, other.finger));
    }
    TrustedAt(AcceptMatch(later, p, i, selects), p, i);
  }

  /** A match that selects more than its own id accepts keys nobody planned. */
  lemma WideMatchIsUnsafe(p: Pod, q: Pod, i: Id, j: Id, good: Key, other: Key, selects: Matching)
    requires p != q && i != j && selects(j, i)
    ensures var there := map[i := Copy(Pending, good), j := Copy(Pending, other)];
            var fleet: Fleet := map[p := there, q := map[i := Copy(Accepted, good)]];
            !SafeAccept(fleet, p, i, selects)
  {
    var there := map[i := Copy(Pending, good), j := Copy(Pending, other)];
    var fleet: Fleet := map[p := there, q := map[i := Copy(Accepted, good)]];
    assert Waits(fleet, p, j);
    if (j, other.finger) in TrustedPairs(fleet) {
      var r := TrustedSomewhere(fleet, (j, other.finger));
    }
  }

  // ------------------------------------------------------------------------ copies

  /** The install of one key on a pod, whatever the pod holds by then. */
  function InstallOn(fleet: Fleet, p: Pod, i: Id, key: Key): Fleet {
    if p !in fleet then fleet else fleet[p := fleet[p][i := Copy(Accepted, key)]]
  }

  lemma InstallLooks(fleet: Fleet, p: Pod, i: Id, key: Key, q: Pod, j: Id)
    ensures Look(InstallOn(fleet, p, i, key), q, j)
         == if q == p && j == i && p in fleet then Some(Copy(Accepted, key)) else Look(fleet, q, j)
    ensures InstallOn(fleet, p, i, key).Keys == fleet.Keys
  {
  }

  predicate HasPair(fleet: Fleet, q: Pod, i: Id, finger: string) {
    Trusts(fleet, q, i) && FingerAt(fleet, q, i) == finger
  }

  lemma PairIsHeld(fleet: Fleet, i: Id, finger: string)
    ensures (i, finger) in TrustedPairs(fleet) <==> exists q :: HasPair(fleet, q, i, finger)
  {
    if (i, finger) in TrustedPairs(fleet) {
      var q := TrustedSomewhere(fleet, (i, finger));
      assert HasPair(fleet, q, i, finger);
    }
    if q :| HasPair(fleet, q, i, finger) { TrustedAt(fleet, q, i); }
  }

  type Copies = map<(Pod, Id), Key>

  /** A pod keeps the pair whatever copies are made: it has it, and is not to get
      another key. */
  predicate Keeps(fleet: Fleet, copies: Copies, q: Pod, i: Id, finger: string) {
    HasPair(fleet, q, i, finger) && ((q, i) in copies ==> copies[(q, i)].finger == finger)
  }

  /** What the copies install is trusted, and every trusted pair has a pod that keeps
      it. */
  ghost predicate SoundCopies(fleet: Fleet, copies: Copies) {
    && (forall p, i :: (p, i) in copies && p in fleet ==> (i, copies[(p, i)].finger) in TrustedPairs(fleet))
    && (forall i, f :: (i, f) in TrustedPairs(fleet) ==> exists q :: Keeps(fleet, copies, q, i, f))
  }

  function AfterInstalls(fleet: Fleet, calls: seq<(Pod, Id)>, copies: Copies): Fleet
    decreases calls
  {
    if calls == [] then fleet
    else
      var a := calls[0];
      AfterInstalls(if a in copies then InstallOn(fleet, a.0, a.1, copies[a]) else fleet, calls[1..], copies)
  }

  ghost predicate HarmlessCopies(fleet: Fleet, copies: Copies) {
    forall calls :: Within(calls, copies.Keys) ==>
        TrustedPairs(AfterInstalls(fleet, calls, copies)) == TrustedPairs(fleet)
  }

  lemma OneInstallKeeps(fleet: Fleet, copies: Copies, p: Pod, i: Id)
    requires SoundCopies(fleet, copies) && (p, i) in copies
    ensures var after := InstallOn(fleet, p, i, copies[(p, i)]);
            TrustedPairs(after) == TrustedPairs(fleet) && SoundCopies(after, copies)
  {
    hide TrustedPairs, InstallOn, Trusts;
    var after := InstallOn(fleet, p, i, copies[(p, i)]);
    InstallLooks(fleet, p, i, copies[(p, i)], p, i);
    forall t: (Id, string) ensures t in TrustedPairs(after) <==> t in TrustedPairs(fleet) {
      var (j, f) := t;
      PairIsHeld(fleet, j, f);
      PairIsHeld(after, j, f);
      if (j, f) in TrustedPairs(fleet) {
        var q :| Keeps(fleet, copies, q, j, f);
        KeeperStays(fleet, copies, p, i, q, j, f);
      }
      if (j, f) in TrustedPairs(after) {
        var q :| HasPair(after, q, j, f);
        InstallGives(fleet, copies, p, i, q, j, f);
      }
    }
    assert TrustedPairs(after) == TrustedPairs(fleet);
    forall j, f | (j, f) in TrustedPairs(after) ensures exists q :: Keeps(after, copies, q, j, f) {
      var q :| Keeps(fleet, copies, q, j, f);
      KeeperStays(fleet, copies, p, i, q, j, f);
    }
  }

  lemma KeeperStays(fleet: Fleet, copies: Copies, p: Pod, i: Id, q: Pod, j: Id, f: string)
    requires (p, i) in copies && Keeps(fleet, copies, q, j, f)
    ensures Keeps(InstallOn(fleet, p, i, copies[(p, i)]), copies, q, j, f)
  {
    hide InstallOn;
    InstallLooks(fleet, p, i, copies[(p, i)], q, j);
  }

  lemma InstallGives(fleet: Fleet, copies: Copies, p: Pod, i: Id, q: Pod, j: Id, f: string)
    requires (p, i) in copies && HasPair(InstallOn(fleet, p, i, copies[(p, i)]), q, j, f)
    ensures HasPair(fleet, q, j, f) || (q == p && j == i && f == copies[(p, i)].finger && p in fleet)
  {
    hide InstallOn;
    InstallLooks(fleet, p, i, copies[(p, i)], q, j);
  }

  lemma {:induction false} SoundCopiesKeep(fleet: Fleet, calls: seq<(Pod, Id)>, copies: Copies)
    requires SoundCopies(fleet, copies) && Within(calls, copies.Keys)
    ensures TrustedPairs(AfterInstalls(fleet, calls, copies)) == TrustedPairs(fleet)
    decreases calls
  {
    hide SoundCopies, TrustedPairs, InstallOn;
    if calls != [] {
      var a := calls[0];
      assert (a.0, a.1) in copies;
      OneInstallKeeps(fleet, copies, a.0, a.1);
      SoundCopiesKeep(InstallOn(fleet, a.0, a.1, copies[a]), calls[1..], copies);
    }
  }

  function On(pods: seq<Pod>, i: Id): seq<(Pod, Id)> {
    if pods == [] then [] else [(pods[0], i)] + On(pods[1..], i)
  }

  /** Copying one id to several pods changes that id there and nothing else. */
  lemma {:induction false} InstalledOn(fleet: Fleet, pods: seq<Pod>, i: Id, copies: Copies, q: Pod)
    requires forall k :: 0 <= k < |pods| ==> (pods[k], i) in copies
    ensures Within(On(pods, i), copies.Keys)
    ensures Look(AfterInstalls(fleet, On(pods, i), copies), q, i)
         == if q in pods && q in fleet then Some(Copy(Accepted, copies[(q, i)])) else Look(fleet, q, i)
    decreases pods
  {
    hide InstallOn, Look;
    if pods != [] {
      var p, rest := pods[0], pods[1..];
      var next := InstallOn(fleet, p, i, copies[(p, i)]);
      InstallLooks(fleet, p, i, copies[(p, i)], q, i);
      InstalledOn(next, rest, i, copies, q);
      assert On(pods, i)[0] == (p, i) && On(pods, i)[1..] == On(rest, i);
      assert q in pods <==> q == p || q in rest;
      forall k | 0 <= k < |On(pods, i)| ensures On(pods, i)[k] in copies.Keys {
        assert k > 0 ==> On(pods, i)[k] == On(rest, i)[k - 1];
      }
    }
  }

  /** From any state of the key directories, making copies, in any order and number, is
      harmless exactly when each installs a trusted key and every trusted pair has a pod
      that keeps it. */
  lemma CopiesAreHarmlessExactly(fleet: Fleet, copies: Copies)
    ensures HarmlessCopies(fleet, copies) <==> SoundCopies(fleet, copies)
  {
    if SoundCopies(fleet, copies) {
      forall calls | Within(calls, copies.Keys)
        ensures TrustedPairs(AfterInstalls(fleet, calls, copies)) == TrustedPairs(fleet)
      {
        SoundCopiesKeep(fleet, calls, copies);
      }
    }
    if HarmlessCopies(fleet, copies) {
      hide TrustedPairs, AfterInstalls, HarmlessCopies;
      forall p, i | (p, i) in copies && p in fleet ensures (i, copies[(p, i)].finger) in TrustedPairs(fleet) {
        HarmlessInstallsTrusted(fleet, copies, p, i);
      }
      forall i, f | (i, f) in TrustedPairs(fleet) ensures exists q :: Keeps(fleet, copies, q, i, f) {
        HarmlessHasKeeper(fleet, copies, i, f);
      }
    }
  }

  lemma HarmlessInstallsTrusted(fleet: Fleet, copies: Copies, p: Pod, i: Id)
    requires HarmlessCopies(fleet, copies) && (p, i) in copies && p in fleet
    ensures (i, copies[(p, i)].finger) in TrustedPairs(fleet)
  {
    hide TrustedPairs, AfterInstalls;
    InstalledOn(fleet, [p], i, copies, p);
    var after := AfterInstalls(fleet, On([p], i), copies);
    PairIsHeld(after, i, copies[(p, i)].finger);
    assert HasPair(after, p, i, copies[(p, i)].finger);
  }

  lemma HarmlessHasKeeper(fleet: Fleet, copies: Copies, i: Id, f: string)
    requires HarmlessCopies(fleet, copies) && (i, f) in TrustedPairs(fleet)
    ensures exists q :: Keeps(fleet, copies, q, i, f)
  {
    hide TrustedPairs, AfterInstalls, HarmlessCopies;
    if !exists q :: Keeps(fleet, copies, q, i, f) {
      var holders := set q | q in fleet && HasPair(fleet, q, i, f);
      var pods := Sorted(holders);
      forall k | 0 <= k < |pods| ensures (pods[k], i) in copies && copies[(pods[k], i)].finger != f {
        assert pods[k] in holders;
        assert !Keeps(fleet, copies, pods[k], i, f);
      }
      InstalledOn(fleet, pods, i, copies, "");
      Unchanged(fleet, On(pods, i), copies);
      var after := AfterInstalls(fleet, On(pods, i), copies);
      PairIsHeld(after, i, f);
      var q :| HasPair(after, q, i, f);
      InstalledOn(fleet, pods, i, copies, q);
      if q in pods { assert q in holders; }
      assert HasPair(fleet, q, i, f) && q in holders && q in pods;
    }
  }

  lemma Unchanged(fleet: Fleet, calls: seq<(Pod, Id)>, copies: Copies)
    requires HarmlessCopies(fleet, copies) && Within(calls, copies.Keys)
    ensures TrustedPairs(AfterInstalls(fleet, calls, copies)) == TrustedPairs(fleet)
  {
  }

  /** The copies of a backfill pass are sound in the directories they were read from. */
  lemma FreshCopiesAreSound(fleet: Fleet, clients: seq<Pod>, env: Env)
    requires Known(fleet, clients)
    ensures SoundCopies(fleet, CopiesDone(fleet, clients, env))
  {
    hide CopiesDone, TrustedPairs, Agreed, Barred;
    var copies := CopiesDone(fleet, clients, env);
    forall p, i | (p, i) in copies
      ensures Look(fleet, p, i).None? && (i, copies[(p, i)].finger) in TrustedPairs(fleet)
    {
      CopiedIs(fleet, clients, env, p, i);
    }
    forall i, f | (i, f) in TrustedPairs(fleet) ensures exists q :: Keeps(fleet, copies, q, i, f) {
      PairIsHeld(fleet, i, f);
      var q :| HasPair(fleet, q, i, f);
      assert Keeps(fleet, copies, q, i, f);
    }
  }

  /** A pod that came to trust another key after the reading loses it to the copy. */
  lemma OverwrittenKeyIsLost(p: Pod, q: Pod, i: Id, good: Key, other: Key)
    requires p != q && good.finger != other.finger
    ensures var later: Fleet := map[p := map[i := Copy(Accepted, other)], q := map[i := Copy(Accepted, good)]];
            (i, other.finger) in TrustedPairs(later) - TrustedPairs(InstallOn(later, p, i, good))
  {
    var later: Fleet := map[p := map[i := Copy(Accepted, other)], q := map[i := Copy(Accepted, good)]];
    TrustedAt(later, p, i);
    var after := InstallOn(later, p, i, good);
    if (i, other.finger) in TrustedPairs(after) {
      var r := TrustedSomewhere(after, (i, other.finger));
    }
  }
}
