/** The request memos of the evaluator: entry lists and decisions kept on the request
    context, grant writes that make them stale, and the role-cache refresh that drops
    them. */
module RbacMemo {
  import opened Options
  import opened Sequences
  import opened RbacCatalog
  import opened RbacScopes
  import opened RbacGrants

  /** (user, perm, minion, prefix) */
  datatype Question = Question(user: User, perm: Perm, minion: Option<Id>, prefix: Option<string>)

  /** The tables and the two memos. pending names the users whose grants changed and
      whose refresh has not run yet. */
  datatype Context = Context(
    tables: Tables,
    entryMemo: map<User, seq<Entry>>,
    decisions: map<Question, bool>,
    pending: set<User>)

  datatype Op =
    | Check(question: Question)
    | AddGrant(row: GrantRow)
    | RemoveGrant(index: nat)
    | Refresh(user: User)

  /** What a check would answer with no memo. */
  predicate Fresh(w: World, t: Tables, q: Question) {
    Authorized(w, EffectiveEntries(t, q.user), q.perm, q.minion, q.prefix)
  }

  /** The entries a reader gets: the memo's, else fresh ones. */
  function Seen(c: Context, u: User): seq<Entry> {
    if u in c.entryMemo then c.entryMemo[u] else GrantEntries(c.tables, u)
  }

  function Answer(w: World, c: Context, q: Question): bool {
    if !KnownPerm(q.perm) then false
    else if q in c.decisions then c.decisions[q]
    else Authorized(w, WithFallback(c.tables, q.user, Seen(c, q.user)), q.perm, q.minion, q.prefix)
  }

  predicate HoldsLadder(entries: seq<Entry>, role: Role) {
    Entry(role, FleetScope) in entries
  }

  /** The value refresh_role_cache computes. */
  function CachedRole(entries: seq<Entry>): Role {
    if HoldsLadder(entries, Admin) then Admin
    else if HoldsLadder(entries, Operator) then Operator
    else if HoldsLadder(entries, Viewer) then Viewer
    else if entries != [] then OtherRole("scoped")
    else OtherRole("none")
  }

  /** Users a row reaches. */
  function Affected(t: Tables, row: GrantRow): set<User> {
    match row.subject
    case UserSubject(u) => {u}
    case GroupSubject(g) => set m | m in t.members && m.0 == g :: m.1
  }

  function Without(t: Tables, k: nat): Tables
    requires k < |t.grants|
  {
    t.(grants := t.grants[..k] + t.grants[k + 1..])
  }

  function Step(w: World, c: Context, op: Op): Context {
    match op
    case Check(q) =>
      if !KnownPerm(q.perm) || q in c.decisions then c
      else c.(entryMemo := c.entryMemo[q.user := Seen(c, q.user)], decisions := c.decisions[q := Answer(w, c, q)])
    case AddGrant(row) =>
      c.(tables := Granted(c.tables, row), pending := c.pending + Affected(c.tables, row))
    case RemoveGrant(k) =>
      if k >= |c.tables.grants| then c
      else c.(tables := Without(c.tables, k), pending := c.pending + Affected(c.tables, c.tables.grants[k]))
    case Refresh(u) =>
      var roles := c.tables.roles[u := CachedRole(Seen(c, u))];
      Context(c.tables.(roles := roles), c.entryMemo - {u}, map[], c.pending - {u})
  }

  function Run(w: World, c: Context, ops: seq<Op>): Context
    decreases ops
  {
    if ops == [] then c else Run(w, Step(w, c, ops[0]), ops[1..])
  }

  /** The cached role is the highest ladder rung held on the fleet; off the ladder it
      only says whether there is any grant. */
  lemma CachedRoleIs(entries: seq<Entry>)
    ensures var role := CachedRole(entries);
            && (role == Admin <==> Entry(Admin, FleetScope) in entries)
            && (role == Operator <==> Entry(Operator, FleetScope) in entries && Entry(Admin, FleetScope) !in entries)
            && (role == Viewer <==> Entry(Viewer, FleetScope) in entries && Entry(Operator, FleetScope) !in entries
                                    && Entry(Admin, FleetScope) !in entries)
            && (role == OtherRole("none") <==> entries == [])
            && role in {Admin, Operator, Viewer, OtherRole("scoped"), OtherRole("none")}
  {
    assert "scoped"[0] != "none"[0];
  }

  /** What the writes leave alone. A grant adds one row and a removal takes one, each
      making a refresh due for the users the row reaches and touching no memo; a
      refresh writes one role and drops one entry memo and every decision. */
  lemma WritesMean(w: World, c: Context, row: GrantRow, k: nat, u: User, v: User)
    ensures var after := Step(w, c, AddGrant(row));
            && after.tables == c.tables.(grants := c.tables.grants + [row])
            && after.entryMemo == c.entryMemo && after.decisions == c.decisions
            && (v in after.pending <==> v in c.pending || row.subject == UserSubject(v)
                                        || (row.subject.GroupSubject? && (row.subject.group, v) in c.tables.members))
    ensures k < |c.tables.grants| ==>
              var after := Step(w, c, RemoveGrant(k));
              && |after.tables.grants| == |c.tables.grants| - 1
              && (forall i :: 0 <= i < k ==> after.tables.grants[i] == c.tables.grants[i])
              && (forall i :: k <= i < |c.tables.grants| - 1 ==> after.tables.grants[i] == c.tables.grants[i + 1])
              && after.entryMemo == c.entryMemo && after.decisions == c.decisions
              && after.tables.(grants := []) == c.tables.(grants := [])
    ensures var after := Step(w, c, Refresh(u));
            && after.tables.(roles := map[]) == c.tables.(roles := map[])
            && RoleColumn(after.tables, u) == CachedRole(if u in c.entryMemo then c.entryMemo[u]
                                                         else GrantEntries(c.tables, u))
            && (v != u ==> RoleColumn(after.tables, v) == RoleColumn(c.tables, v))
            && (v in after.entryMemo <==> v != u && v in c.entryMemo)
            && (v != u && v in c.entryMemo ==> after.entryMemo[v] == c.entryMemo[v])
            && after.decisions == map[]
  {
    NotReached(c.tables, row, v);
    hide Affected, CachedRole, GrantEntries;
  }

  /** Everything memoized for a user with no refresh pending is what a fresh
      evaluation gives. */
  predicate Coherent(w: World, c: Context) {
    && (forall u :: u in c.entryMemo && u !in c.pending ==> c.entryMemo[u] == GrantEntries(c.tables, u))
    && (forall q :: q in c.decisions && q.user !in c.pending ==> c.decisions[q] == Fresh(w, c.tables, q))
  }

  lemma {:induction false} OwnAppend(a: seq<GrantRow>, b: seq<GrantRow>, u: User)
    ensures OwnEntries(a + b, u) == OwnEntries(a, u) + OwnEntries(b, u)
  {
    if a == [] {
      EmptyAppends(b);
    } else {
      assert (a + b)[1..] == a[1..] + b;
      OwnAppend(a[1..], b, u);
      Associates(OwnEntry(a[0], u), OwnEntries(a[1..], u), OwnEntries(b, u));
    }
  }

  lemma {:induction false} GroupAppend(a: seq<GrantRow>, b: seq<GrantRow>, members: set<(Group, User)>, u: User)
    ensures GroupEntries(a + b, members, u) == GroupEntries(a, members, u) + GroupEntries(b, members, u)
  {
    if a == [] {
      EmptyAppends(b);
    } else {
      assert (a + b)[1..] == a[1..] + b;
      GroupAppend(a[1..], b, members, u);
      Associates(GroupEntry(a[0], members, u), GroupEntries(a[1..], members, u), GroupEntries(b, members, u));
    }
  }

  /** A removed row changes nothing for users it did not reach. */
  lemma RemovalLeavesOthers(t: Tables, k: nat, u: User)
    requires k < |t.grants| && u !in Affected(t, t.grants[k])
    ensures GrantEntries(Without(t, k), u) == GrantEntries(t, u)
  {
    var a, row, b := t.grants[..k], t.grants[k], t.grants[k + 1..];
    assert t.grants == (a + [row]) + b;
    OwnAppend(a, b, u);
    OwnAppend(a + [row], b, u);
    OwnAppend(a, [row], u);
    GroupAppend(a, b, t.members, u);
    GroupAppend(a + [row], b, t.members, u);
    GroupAppend(a, [row], t.members, u);
    NotReached(t, row, u);
    EmptyAppends(OwnEntries(a, u));
    EmptyAppends(GroupEntries(a, t.members, u));
  }

  lemma NotReached(t: Tables, row: GrantRow, u: User)
    ensures u in Affected(t, row) <==> Touches(t, row, u)
    ensures u !in Affected(t, row) ==> OwnEntries([row], u) == [] && GroupEntries([row], t.members, u) == []
  {
    if row.subject.GroupSubject? && (row.subject.group, u) in t.members {
      assert (row.subject.group, u).1 in Affected(t, row);
    }
  }

  /** Memo coherence, step by step: no operation leaves a wrong memo for a user
      whose refresh is not pending. */
  lemma StepCoherent(w: World, c: Context, op: Op)
    requires Coherent(w, c)
    ensures Coherent(w, Step(w, c, op))
  {
    hide Authorized, GrantEntries, Affected, KnownPerm;
    var after := Step(w, c, op);
    match op
    case Check(q) =>
    case AddGrant(row) =>
      hide Coherent;
      forall u | u !in after.pending ensures GrantEntries(after.tables, u) == GrantEntries(c.tables, u) {
        NotReached(c.tables, row, u);
        GrantAdds(c.tables, row, u);
      }
      StillCoherent(w, c, after);
    case RemoveGrant(k) =>
      hide Coherent;
      if k < |c.tables.grants| {
        forall u | u !in after.pending ensures GrantEntries(after.tables, u) == GrantEntries(c.tables, u) {
          RemovalLeavesOthers(c.tables, k, u);
        }
        StillCoherent(w, c, after);
      }
    case Refresh(u) =>
      RefreshCoherent(w, c, u);
  }

  /** Grant writes leave the memos of users they did not reach good. */
  lemma StillCoherent(w: World, c: Context, after: Context)
    requires Coherent(w, c) && after.entryMemo == c.entryMemo && after.decisions == c.decisions
        && c.pending <= after.pending
    requires after.tables.fallback == c.tables.fallback && after.tables.roles == c.tables.roles
    requires forall u :: u !in after.pending ==> GrantEntries(after.tables, u) == GrantEntries(c.tables, u)
    ensures Coherent(w, after)
  {
    hide Authorized, GrantEntries, KnownPerm;
    forall q | q in after.decisions && q.user !in after.pending
      ensures after.decisions[q] == Fresh(w, after.tables, q)
    {
      assert GrantEntries(after.tables, q.user) == GrantEntries(c.tables, q.user);
      assert RoleColumn(after.tables, q.user) == RoleColumn(c.tables, q.user);
    }
  }

  lemma RefreshCoherent(w: World, c: Context, u: User)
    requires Coherent(w, c)
    ensures Coherent(w, Step(w, c, Refresh(u)))
  {
    hide Authorized, KnownPerm, Fresh;
    var after := Step(w, c, Refresh(u));
    forall v ensures GrantEntries(after.tables, v) == GrantEntries(c.tables, v) {}
  }

  lemma {:induction false} RunCoherent(w: World, c: Context, ops: seq<Op>)
    requires Coherent(w, c)
    ensures Coherent(w, Run(w, c, ops))
    decreases ops
  {
    if ops != [] {
      StepCoherent(w, c, ops[0]);
      RunCoherent(w, Step(w, c, ops[0]), ops[1..]);
    }
  }

  /** At the end of any run from empty memos, a check of a user whose every change
      has been followed by a refresh answers as a fresh evaluation would. */
  lemma ChecksAreFresh(w: World, t: Tables, ops: seq<Op>, q: Question)
    requires q.user !in Run(w, Context(t, map[], map[], {}), ops).pending
    ensures var c := Run(w, Context(t, map[], map[], {}), ops);
            Answer(w, c, q) == Fresh(w, c.tables, q)
  {
    RunCoherent(w, Context(t, map[], map[], {}), ops);
  }

  /** The ladder fallback does nothing for u. */
  predicate Inert(t: Tables, u: User) {
    EffectiveEntries(t, u) == GrantEntries(t, u)
  }

  predicate HasLadder(entries: seq<Entry>) {
    HoldsLadder(entries, Admin) || HoldsLadder(entries, Operator) || HoldsLadder(entries, Viewer)
  }

  /** After a refresh the fallback is inert unless the refresh read a memo that still
      showed a fleet ladder grant to a user who by now has no grant at all. */
  lemma RefreshMakesInert(w: World, c: Context, u: User)
    ensures var after := Step(w, c, Refresh(u));
            Inert(after.tables, u) <==>
              GrantEntries(c.tables, u) != [] || !c.tables.fallback || !HasLadder(Seen(c, u))
    ensures u !in c.entryMemo || c.entryMemo[u] == GrantEntries(c.tables, u) ==>
              Inert(Step(w, c, Refresh(u)).tables, u)
  {
    var after := Step(w, c, Refresh(u));
    assert GrantEntries(after.tables, u) == GrantEntries(c.tables, u);
    assert RoleColumn(after.tables, u) == CachedRole(Seen(c, u));
    if GrantEntries(c.tables, u) == [] && c.tables.fallback && HasLadder(Seen(c, u)) {
      assert EffectiveEntries(after.tables, u) == [Entry(CachedRole(Seen(c, u)), FleetScope)];
    }
  }

  /** The failing family has members: an administrator whose only grant comes through
      a local group, and who in one request is let in and deletes that grant, is
      refreshed from the memo the check left, and the fallback then keeps them one. */
  lemma StaleMemoKeepsLadder(w: World, u: User, g: Group)
    ensures var row := GrantRow(GroupSubject(g), Admin, FleetScope);
            var t := Tables([row], {(g, u)}, {}, [], map[], true);
            var q := Question(u, UserAdmin, None, None);
            var c := Run(w, Context(t, map[], map[], {}), [Check(q), RemoveGrant(0), Refresh(u)]);
            GrantEntries(c.tables, u) == [] && !Inert(c.tables, u) && Answer(w, c, q)
  {
    var row := GrantRow(GroupSubject(g), Admin, FleetScope);
    var t := Tables([row], {(g, u)}, {}, [], map[], true);
    var q := Question(u, UserAdmin, None, None);
    var c0 := Context(t, map[], map[], {});
    var e := Entry(Admin, FleetScope);
    OneGroupGrant(t, row, u);
    AdminIsAdmin();
    hide GrantEntries, Affected, Authorized, WithFallback, CachedRole, Inert, Answer, HasLadder, Step, Run;
    var c1 := Step(w, c0, Check(q));
    CheckMemoizes(w, c0, q);
    var c2 := Step(w, c1, RemoveGrant(0));
    RemovalOfOnly(w, c1, row);
    var c3 := Step(w, c2, Refresh(u));
    RefreshDrops(w, c2, u);
    ThreeSteps(w, c0, Check(q), RemoveGrant(0), Refresh(u));
    RefreshMakesInert(w, c2, u);
    LadderAnswers(w, c3, q);
  }

  lemma CheckMemoizes(w: World, c: Context, q: Question)
    requires KnownPerm(q.perm) && q !in c.decisions && q.user !in c.entryMemo
    ensures var after := Step(w, c, Check(q));
            after.tables == c.tables && after.entryMemo == c.entryMemo[q.user := GrantEntries(c.tables, q.user)]
  {
    hide GrantEntries, Answer;
  }

  lemma RemovalOfOnly(w: World, c: Context, row: GrantRow)
    requires c.tables.grants == [row]
    ensures var after := Step(w, c, RemoveGrant(0));
            after.tables == c.tables.(grants := []) && after.entryMemo == c.entryMemo
  {
    hide Affected;
    assert [row][..0] + [row][1..] == [];
  }

  lemma RefreshDrops(w: World, c: Context, u: User)
    ensures var after := Step(w, c, Refresh(u));
            && after.tables == c.tables.(roles := c.tables.roles[u := CachedRole(Seen(c, u))])
            && after.entryMemo == c.entryMemo - {u} && after.decisions == map[]
            && GrantEntries(after.tables, u) == GrantEntries(c.tables, u)
  {
    hide CachedRole;
  }

  lemma AdminIsAdmin()
    ensures var entries := [Entry(Admin, FleetScope)];
            CachedRole(entries) == Admin && HasLadder(entries)
  {
    assert Entry(Admin, FleetScope) in [Entry(Admin, FleetScope)];
  }

  lemma OneGroupGrant(t: Tables, row: GrantRow, u: User)
    requires row.subject.GroupSubject? && (row.subject.group, u) in t.members
    requires t.grants == [row] && t.mappings == []
    ensures GrantEntries(t, u) == [Entry(row.role, row.scope)]
    ensures GrantEntries(t.(grants := []), u) == []
  {
    assert [row][1..] == [];
    assert OwnEntries([row], u) == [] && GroupEntries([row], t.members, u) == [Entry(row.role, row.scope)];
  }

  lemma ThreeSteps(w: World, c: Context, a: Op, b: Op, d: Op)
    ensures Run(w, c, [a, b, d]) == Step(w, Step(w, Step(w, c, a), b), d)
  {
    hide Step;
    assert [a, b, d][1..] == [b, d] && [b, d][1..] == [d] && [d][1..] == [];
    var c1, c2 := Step(w, c, a), Step(w, Step(w, c, a), b);
    assert Run(w, c2, [d]) == Run(w, Step(w, c2, d), []);
    assert Run(w, c1, [b, d]) == Run(w, c2, [d]);
  }

  /** With no grants left and the ladder role cached, the fallback answers. */
  lemma LadderAnswers(w: World, c: Context, q: Question)
    requires GrantEntries(c.tables, q.user) == [] && c.tables.fallback && RoleColumn(c.tables, q.user) == Admin
    requires c.entryMemo == map[] && c.decisions == map[] && q.perm == UserAdmin && q.minion == None && q.prefix == None
    ensures Answer(w, c, q)
  {
    hide GrantEntries;
    var e := Entry(Admin, FleetScope);
    assert EntryCovers(w, e, UserAdmin, None, None) && e in [e];
  }

  // ------------------------------------------------------------------------- methods

  /** The request context the evaluator reads and fills. */
  class RequestContext {
    const world: World
    var tables: Tables
    var entryMemo: map<User, seq<Entry>>
    var decisions: map<Question, bool>
    ghost var pending: set<User>

    ghost function Model(): Context
      reads this
    {
      Context(tables, entryMemo, decisions, pending)
    }

    constructor (world: World, tables: Tables)
      ensures this.world == world && Model() == Context(tables, map[], map[], {})
    {
      this.world, this.tables := world, tables;
      entryMemo, decisions, pending := map[], map[], {};
    }

    /** _grant_entries: from the memo, else evaluated and memoized. */
    method ReadGrantEntries(u: User) returns (entries: seq<Entry>)
      modifies this`entryMemo
      ensures entries == Seen(old(Model()), u)
      ensures entryMemo == old(entryMemo)[u := entries]
    {
      if u in entryMemo {
        return entryMemo[u];
      }
      entries := GrantEntries(tables, u);
      entryMemo := entryMemo[u := entries];
    }

    /** authorize: from the decision memo, else over the effective entries. */
    method Authorize(q: Question) returns (allowed: bool)
      modifies this`entryMemo, this`decisions
      ensures allowed == Answer(world, old(Model()), q)
      ensures Model() == Step(world, old(Model()), Check(q))
    {
      if !KnownPerm(q.perm) {
        return false;
      }
      if q in decisions {
        return decisions[q];
      }
      var granted := ReadGrantEntries(q.user);
      var entries := WithFallback(tables, q.user, granted);
      allowed := false;
      for k := 0 to |entries|
        invariant allowed <==> exists j :: 0 <= j < k && EntryCovers(world, entries[j], q.perm, q.minion, q.prefix)
      {
        allowed := allowed || EntryCovers(world, entries[k], q.perm, q.minion, q.prefix);
      }
      decisions := decisions[q := allowed];
    }

    /** A grant view's write, before its refreshes. */
    method InsertGrant(row: GrantRow)
      modifies this`tables, this`pending
      ensures Model() == Step(world, old(Model()), AddGrant(row))
    {
      pending := pending + Affected(tables, row);
      tables := tables.(grants := tables.grants + [row]);
    }

    method DeleteGrant(k: nat)
      modifies this`tables, this`pending
      ensures Model() == Step(world, old(Model()), RemoveGrant(k))
    {
      if k < |tables.grants| {
        pending := pending + Affected(tables, tables.grants[k]);
        tables := tables.(grants := tables.grants[..k] + tables.grants[k + 1..]);
      }
    }

    /** refresh_role_cache: recompute the role column through the memo, then drop the
        user's entries and every decision. */
    method RefreshRoleCache(u: User) returns (cached: Role)
      modifies this
      ensures cached == CachedRole(Seen(old(Model()), u))
      ensures Model() == Step(world, old(Model()), Refresh(u))
    {
      hide HoldsLadder;
      var entries := ReadGrantEntries(u);
      if HoldsLadder(entries, Admin) {
        cached := Admin;
      } else if HoldsLadder(entries, Operator) {
        cached := Operator;
      } else if HoldsLadder(entries, Viewer) {
        cached := Viewer;
      } else if entries != [] {
        cached := OtherRole("scoped");
      } else {
        cached := OtherRole("none");
      }
      tables := tables.(roles := tables.roles[u := cached]);
      assert entryMemo - {u} == old(entryMemo) - {u};
      entryMemo := entryMemo - {u};
      decisions := map[];
      pending := pending - {u};
    }
  }
}
