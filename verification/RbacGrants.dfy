/** Grant rows, the entries they give each user, and runs of delegated grants. */
module RbacGrants {
  import opened Options
  import opened Sequences
  import opened RbacCatalog
  import opened RbacScopes

  type User = int
  type Group = int

  datatype Subject = UserSubject(user: User) | GroupSubject(group: Group)

  datatype GrantRow = GrantRow(subject: Subject, role: Role, scope: Scope)

  datatype Mapping = Mapping(idpGroup: string, role: Role, scope: Scope)

  /** The tables an evaluation reads. roles is the users.role column. */
  datatype Tables = Tables(
    grants: seq<GrantRow>,
    members: set<(Group, User)>,
    idpGroups: set<(User, string)>,
    mappings: seq<Mapping>,
    roles: map<User, Role>,
    fallback: bool)

  function OwnEntries(rows: seq<GrantRow>, u: User): seq<Entry> {
    if rows == [] then []
    else OwnEntry(rows[0], u) + OwnEntries(rows[1..], u)
  }

  function OwnEntry(row: GrantRow, u: User): seq<Entry> {
    if row.subject == UserSubject(u) then [Entry(row.role, row.scope)] else []
  }

  function GroupEntries(rows: seq<GrantRow>, members: set<(Group, User)>, u: User): seq<Entry> {
    if rows == [] then []
    else GroupEntry(rows[0], members, u) + GroupEntries(rows[1..], members, u)
  }

  function GroupEntry(row: GrantRow, members: set<(Group, User)>, u: User): seq<Entry> {
    if row.subject.GroupSubject? && (row.subject.group, u) in members then [Entry(row.role, row.scope)] else []
  }

  function MappedEntries(rows: seq<Mapping>, idpGroups: set<(User, string)>, u: User): seq<Entry> {
    if rows == [] then []
    else (if (u, rows[0].idpGroup) in idpGroups then [Entry(rows[0].role, rows[0].scope)] else [])
         + MappedEntries(rows[1..], idpGroups, u)
  }

  /** _grant_entries, evaluated fresh: manual grants, local-group grants, mappings. */
  function GrantEntries(t: Tables, u: User): seq<Entry> {
    OwnEntries(t.grants, u) + GroupEntries(t.grants, t.members, u) + MappedEntries(t.mappings, t.idpGroups, u)
  }

  function RoleColumn(t: Tables, u: User): Role {
    if u in t.roles then t.roles[u] else OtherRole("")
  }

  /** _effective_entries over given grant entries: the ladder fallback for a user
      with none. */
  function WithFallback(t: Tables, u: User, entries: seq<Entry>): seq<Entry> {
    if entries == [] && t.fallback && IsLadder(RoleColumn(t, u)) then [Entry(RoleColumn(t, u), FleetScope)] else entries
  }

  function EffectiveEntries(t: Tables, u: User): seq<Entry> {
    WithFallback(t, u, GrantEntries(t, u))
  }

  lemma {:induction false} OwnMean(rows: seq<GrantRow>, u: User, e: Entry)
    ensures e in OwnEntries(rows, u) <==> GrantRow(UserSubject(u), e.role, e.scope) in rows
  {
    if rows != [] {
      OwnMean(rows[1..], u, e);
      assert rows == [rows[0]] + rows[1..];
    }
  }

  lemma {:induction false} GroupMean(rows: seq<GrantRow>, members: set<(Group, User)>, u: User, e: Entry)
    ensures e in GroupEntries(rows, members, u)
       <==> exists g :: (g, u) in members && GrantRow(GroupSubject(g), e.role, e.scope) in rows
  {
    if rows != [] {
      GroupMean(rows[1..], members, u, e);
      assert rows == [rows[0]] + rows[1..];
    }
  }

  lemma {:induction false} MappedMean(rows: seq<Mapping>, idpGroups: set<(User, string)>, u: User, e: Entry)
    ensures e in MappedEntries(rows, idpGroups, u)
       <==> exists name :: (u, name) in idpGroups && Mapping(name, e.role, e.scope) in rows
  {
    if rows != [] {
      MappedMean(rows[1..], idpGroups, u, e);
      assert rows == [rows[0]] + rows[1..];
    }
  }

  /** Where entries come from: a grant to the user, a grant to a local group they are
      in, a mapping of an identity provider group of theirs, and nothing else; only
      without any of these, and while the fallback is on, a ladder role in the users
      table counts as held on the fleet. */
  lemma EntriesMean(t: Tables, u: User, e: Entry)
    ensures e in GrantEntries(t, u) <==>
              || GrantRow(UserSubject(u), e.role, e.scope) in t.grants
              || (exists g :: (g, u) in t.members && GrantRow(GroupSubject(g), e.role, e.scope) in t.grants)
              || (exists name :: (u, name) in t.idpGroups && Mapping(name, e.role, e.scope) in t.mappings)
    ensures e in EffectiveEntries(t, u) <==>
              || e in GrantEntries(t, u)
              || (GrantEntries(t, u) == [] && t.fallback && u in t.roles
                  && t.roles[u] in {Viewer, Operator, Admin} && e == Entry(t.roles[u], FleetScope))
  {
    OwnMean(t.grants, u, e);
    GroupMean(t.grants, t.members, u, e);
    MappedMean(t.mappings, t.idpGroups, u, e);
    hide OwnEntries, GroupEntries, MappedEntries;
  }

  // ---------------------------------------------------------------------- delegation

  predicate Delegable(scope: Scope) {
    scope.GroupScope? || scope.ListScope? || scope.GlobScope? || scope.GrainScope?
  }

  datatype DelegateError = NeedsMinionScope | RoleNotDelegable | AdminNotDelegable | OutsideScope | NotHeld

  /** The permissions delegate_grant_error compares. */
  predicate Wanted(role: Role, perm: Perm) {
    Carries(role, perm) && DomainOf(perm) != FleetDomain && DomainOf(perm) != PrefixDomain
  }

  /** What holding perm on a scope means to the check. */
  function Held(w: World, entries: seq<Entry>, perm: Perm): set<Id> {
    if DomainOf(perm) == DelegateDomain then ScopeMinions(w, entries, perm) else MinionsWith(w, entries, perm)
  }

  predicate BuiltIn(role: Role) {
    !role.OtherRole?
  }

  /** delegate_grant_error for a delegator with the given effective entries. */
  ghost function DelegateGrantError(w: World, entries: seq<Entry>, role: Role, scope: Scope): Option<DelegateError> {
    if !Delegable(scope) then Some(NeedsMinionScope)
    else if !BuiltIn(role) || FleetOnly(role) then Some(RoleNotDelegable)
    else if Carries(role, GrantAdmin) then Some(AdminNotDelegable)
    else if !(Resolve(w, scope) <= MinionsWith(w, entries, GrantDelegate)) then Some(OutsideScope)
    else if forall perm :: Wanted(role, perm) ==> Resolve(w, scope) <= Held(w, entries, perm) then None
    else Some(NotHeld)
  }

  /** When a delegated grant passes: a minion scope, a built-in role that may be held off
      the fleet, and for each minion the scope names that the delegator may delegate
      there and holds whatever the role carries there. Permissions on files or the
      fleet are not compared: the grant does not give them. */
  lemma DelegationPassesExactly(w: World, entries: seq<Entry>, role: Role, scope: Scope)
    ensures DelegateGrantError(w, entries, role, scope) == None <==>
              && !scope.FleetScope? && !scope.PrefixScope? && !scope.OtherScope?
              && !role.OtherRole? && !FleetOnly(role)
              && forall m :: m in Resolve(w, scope) ==>
                   && m in MinionsWith(w, entries, GrantDelegate)
                   && forall perm :: Carries(role, perm) ==>
                        && (DomainOf(perm) == MinionDomain ==> m in MinionsWith(w, entries, perm))
                        && (perm in {UserRead, AuditRead} ==> m in ScopeMinions(w, entries, perm))
    ensures DelegateGrantError(w, entries, role, scope) == Some(NeedsMinionScope)
       <==> scope.FleetScope? || scope.PrefixScope? || scope.OtherScope?
    ensures DelegateGrantError(w, entries, role, scope) == Some(OutsideScope) ==>
              !(Resolve(w, scope) <= MinionsWith(w, entries, GrantDelegate))
    ensures DelegateGrantError(w, entries, role, scope) == Some(NotHeld) ==>
              Resolve(w, scope) <= MinionsWith(w, entries, GrantDelegate)
  {
    hide MinionsWith, ScopeMinions, Resolve;
    assert Carries(role, GrantAdmin) ==> FleetOnly(role);
    forall perm ensures Wanted(role, perm)
                   <==> Carries(role, perm) && (DomainOf(perm) == MinionDomain || perm in {UserRead, AuditRead})
    {
      DelegateDomainIs(perm);
    }
    hide Carries, FleetOnly, Wanted, DomainOf;
    if DelegateGrantError(w, entries, role, scope) == None {
      forall m, perm | m in Resolve(w, scope) && Carries(role, perm)
        ensures DomainOf(perm) == MinionDomain ==> m in MinionsWith(w, entries, perm)
        ensures perm in {UserRead, AuditRead} ==> m in ScopeMinions(w, entries, perm)
      {
        DelegateDomainIs(perm);
        assert Wanted(role, perm) ==> m in Held(w, entries, perm);
      }
    } else if forall m :: m in Resolve(w, scope) ==>
                 && m in MinionsWith(w, entries, GrantDelegate)
                 && forall perm :: Carries(role, perm) ==>
                      && (DomainOf(perm) == MinionDomain ==> m in MinionsWith(w, entries, perm))
                      && (perm in {UserRead, AuditRead} ==> m in ScopeMinions(w, entries, perm))
    {
      forall perm | Wanted(role, perm) ensures Resolve(w, scope) <= Held(w, entries, perm) {
        DelegateDomainIs(perm);
      }
    }
  }

  lemma DelegateDomainIs(perm: Perm)
    ensures DomainOf(perm) == DelegateDomain <==> perm in {UserRead, AuditRead}
  {
  }

  /** The tail of delegate_grant_error: compare the wanted permissions one by one. */
  method CheckDelegation(w: World, entries: seq<Entry>, role: Role, scope: Scope) returns (error: Option<DelegateError>)
    ensures error == DelegateGrantError(w, entries, role, scope)
  {
    hide Carries, Resolve, MinionsWith, ScopeMinions, ALL_PERMS;
    if !Delegable(scope) { return Some(NeedsMinionScope); }
    if !BuiltIn(role) || FleetOnly(role) { return Some(RoleNotDelegable); }
    if Carries(role, GrantAdmin) { return Some(AdminNotDelegable); }
    var resolved := Resolve(w, scope) * w.snapshot;
    assert resolved == Resolve(w, scope);
    var within := ComputeMinionsWith(w, entries, GrantDelegate);
    if !(resolved <= within) { return Some(OutsideScope); }
    var todo := set perm | perm in ALL_PERMS && Wanted(role, perm);
    forall perm | Wanted(role, perm) ensures perm in todo {
      CarriedIsKnown(role, perm);
      KnownAreListed(perm);
    }
    while todo != {}
      invariant forall perm :: perm in todo ==> Wanted(role, perm)
      invariant forall perm :: Wanted(role, perm) ==> perm in todo || resolved <= Held(w, entries, perm)
    {
      var perm :| perm in todo;
      var held;
      if DomainOf(perm) == DelegateDomain {
        held := ComputeScopeMinions(w, entries, perm);
      } else {
        held := ComputeMinionsWith(w, entries, perm);
      }
      if !(resolved <= held) { return Some(NotHeld); }
      todo := todo - {perm};
    }
    return None;
  }

  lemma CarriedIsKnown(role: Role, perm: Perm)
    ensures Carries(role, perm) ==> KnownPerm(perm)
  {
  }

  /** One delegated grant that passed the check: who gives it, and the row. */
  datatype Delegation = Delegation(giver: User, row: GrantRow)

  ghost predicate Passes(w: World, t: Tables, d: Delegation) {
    DelegateGrantError(w, EffectiveEntries(t, d.giver), d.row.role, d.row.scope) == None
  }

  function Granted(t: Tables, row: GrantRow): Tables {
    t.(grants := t.grants + [row])
  }

  /** A run: every step passes the check in the state it is made in. */
  ghost predicate IsRun(w: World, t: Tables, run: seq<Delegation>)
    decreases run
  {
    run == [] || (Passes(w, t, run[0]) && IsRun(w, Granted(t, run[0].row), run[1..]))
  }

  function AfterRun(t: Tables, run: seq<Delegation>): Tables
    decreases run
  {
    if run == [] then t else AfterRun(Granted(t, run[0].row), run[1..])
  }

  lemma {:induction false} OwnSnoc(rows: seq<GrantRow>, row: GrantRow, u: User)
    ensures OwnEntries(rows + [row], u) == OwnEntries(rows, u) + OwnEntry(row, u)
  {
    if rows == [] {
      EmptyAppends([row]);
    } else {
      SnocTail(rows, row);
      OwnSnoc(rows[1..], row, u);
      Associates(OwnEntry(rows[0], u), OwnEntries(rows[1..], u), OwnEntry(row, u));
    }
  }

  lemma {:induction false} GroupSnoc(rows: seq<GrantRow>, row: GrantRow, members: set<(Group, User)>, u: User)
    ensures GroupEntries(rows + [row], members, u)
         == GroupEntries(rows, members, u) + GroupEntry(row, members, u)
  {
    if rows == [] {
      EmptyAppends([row]);
    } else {
      SnocTail(rows, row);
      GroupSnoc(rows[1..], row, members, u);
      Associates(GroupEntry(rows[0], members, u), GroupEntries(rows[1..], members, u), GroupEntry(row, members, u));
    }
  }

  /** The users a grant row reaches. */
  predicate Touches(t: Tables, row: GrantRow, u: User) {
    row.subject == UserSubject(u) || (row.subject.GroupSubject? && (row.subject.group, u) in t.members)
  }

  /** A new row adds one entry to the users it reaches and none to anyone else. */
  lemma GrantAdds(t: Tables, row: GrantRow, u: User)
    ensures forall e :: e in GrantEntries(Granted(t, row), u) <==>
              e in GrantEntries(t, u) || (Touches(t, row, u) && e == Entry(row.role, row.scope))
    ensures !Touches(t, row, u) ==> GrantEntries(Granted(t, row), u) == GrantEntries(t, u)
    ensures GrantEntries(Granted(t, row), u) == [] ==> GrantEntries(t, u) == []
  {
    OwnSnoc(t.grants, row, u);
    GroupSnoc(t.grants, row, t.members, u);
  }

  /** Anything effective after a grant was effective before it, or is the new entry. */
  lemma EffectiveAfterGrant(t: Tables, row: GrantRow, u: User, e: Entry)
    requires e in EffectiveEntries(Granted(t, row), u)
    ensures e in EffectiveEntries(t, u) || (Touches(t, row, u) && e == Entry(row.role, row.scope))
  {
    GrantAdds(t, row, u);
  }

  /** u holds perm on m, in the sense of the two minion sets. */
  predicate Holds(w: World, t: Tables, u: User, perm: Perm, m: Id) {
    m in Held(w, EffectiveEntries(t, u), perm)
  }

  /** One step: a minion-scoped pair someone holds afterwards, they or the delegator
      held before. Fleet and prefix permissions go to nobody new. */
  lemma DelegationStep(w: World, t: Tables, d: Delegation, u: User, perm: Perm, m: Id)
    requires Passes(w, t, d)
    requires DomainOf(perm) == MinionDomain || DomainOf(perm) == DelegateDomain
    requires Holds(w, Granted(t, d.row), u, perm, m)
    ensures Holds(w, t, u, perm, m) || Holds(w, t, d.giver, perm, m)
  {
    hide EffectiveEntries, Resolve;
    var after := EffectiveEntries(Granted(t, d.row), u);
    var e :| e in after && Counts(e, perm) && m in Reach(w, e);
    EffectiveAfterGrant(t, d.row, u, e);
    if e !in EffectiveEntries(t, u) {
      assert Wanted(d.row.role, perm);
    }
  }

  lemma DelegationGivesNoFleet(w: World, t: Tables, d: Delegation, u: User, perm: Perm)
    requires Passes(w, t, d)
    requires HasFleet(EffectiveEntries(Granted(t, d.row), u), perm)
    ensures HasFleet(EffectiveEntries(t, u), perm)
  {
    var e :| e in EffectiveEntries(Granted(t, d.row), u) && Carries(e.role, perm) && e.scope.FleetScope?;
    EffectiveAfterGrant(t, d.row, u, e);
  }

  lemma DelegationGivesNoPath(w: World, t: Tables, d: Delegation, u: User, perm: Perm, path: Option<string>)
    requires Passes(w, t, d) && DomainOf(perm) == PrefixDomain
    requires Authorized(w, EffectiveEntries(Granted(t, d.row), u), perm, None, path)
    ensures Authorized(w, EffectiveEntries(t, u), perm, None, path)
  {
    var e :| e in EffectiveEntries(Granted(t, d.row), u) && EntryCovers(w, e, perm, None, path);
    EffectiveAfterGrant(t, d.row, u, e);
  }

  /** Delegation is safe over whole runs: whatever u holds on a minion at the end, u
      or one of the run's delegators held at the start, however the steps chain. */
  lemma {:induction false} DelegationRun(w: World, t: Tables, run: seq<Delegation>, u: User, perm: Perm, m: Id)
    requires IsRun(w, t, run)
    requires DomainOf(perm) == MinionDomain || DomainOf(perm) == DelegateDomain
    requires Holds(w, AfterRun(t, run), u, perm, m)
    ensures Holds(w, t, u, perm, m) || exists d :: d in run && Holds(w, t, d.giver, perm, m)
    decreases run
  {
    if run != [] {
      var t' := Granted(t, run[0].row);
      DelegationRun(w, t', run[1..], u, perm, m);
      var v := u;
      if !Holds(w, t', u, perm, m) {
        var d :| d in run[1..] && Holds(w, t', d.giver, perm, m);
        v := d.giver;
        assert d in run;
      }
      DelegationStep(w, t, run[0], v, perm, m);
      assert run[0] in run;
    }
  }

  /** Over whole runs nobody gains a fleet-domain permission (all minions, or a
      fleet-wide action) or a file path. */
  lemma {:induction false} DelegationRunGivesNoFleet(w: World, t: Tables, run: seq<Delegation>, u: User, perm: Perm)
    requires IsRun(w, t, run)
    requires HasFleet(EffectiveEntries(AfterRun(t, run), u), perm)
    ensures HasFleet(EffectiveEntries(t, u), perm)
    decreases run
  {
    if run != [] {
      DelegationRunGivesNoFleet(w, Granted(t, run[0].row), run[1..], u, perm);
      DelegationGivesNoFleet(w, t, run[0], u, perm);
    }
  }

  lemma {:induction false} DelegationRunGivesNoPath(w: World, t: Tables, run: seq<Delegation>, u: User,
      perm: Perm, path: Option<string>)
    requires IsRun(w, t, run) && DomainOf(perm) == PrefixDomain
    requires Authorized(w, EffectiveEntries(AfterRun(t, run), u), perm, None, path)
    ensures Authorized(w, EffectiveEntries(t, u), perm, None, path)
    decreases run
  {
    if run != [] {
      DelegationRunGivesNoPath(w, Granted(t, run[0].row), run[1..], u, perm, path);
      DelegationGivesNoPath(w, t, run[0], u, perm, path);
    }
  }

  // ------------------------------------------------- checks that name no minion

  /** The check asked with no minion, as pages that filter their own rows ask it. */
  predicate Asks(w: World, t: Tables, u: User, perm: Perm) {
    Authorized(w, EffectiveEntries(t, u), perm, None, None)
  }

  /** For a permission with a minion scope the check without a minion asks for an entry
      that counts, whatever its scope resolves to; a path entry counts for a permission
      of the delegate domain only. */
  predicate CountsUnnamed(e: Entry, perm: Perm) {
    Counts(e, perm) && (e.scope.PrefixScope? ==> DomainOf(perm) == DelegateDomain)
  }

  lemma AsksIs(w: World, t: Tables, u: User, perm: Perm)
    requires KnownPerm(perm) && (DomainOf(perm) == MinionDomain || DomainOf(perm) == DelegateDomain)
    ensures Asks(w, t, u, perm) <==> exists e :: e in EffectiveEntries(t, u) && CountsUnnamed(e, perm)
  {
    var entries := EffectiveEntries(t, u);
    hide EffectiveEntries;
    forall e | e in entries ensures EntryCovers(w, e, perm, None, None) <==> CountsUnnamed(e, perm) {}
  }

  /** Who holds a permission on some minion passes the check that names none. */
  lemma HoldingAsks(w: World, t: Tables, u: User, perm: Perm, m: Id)
    requires KnownPerm(perm) && (DomainOf(perm) == MinionDomain || DomainOf(perm) == DelegateDomain)
    requires Holds(w, t, u, perm, m)
    ensures Asks(w, t, u, perm)
  {
    hide EffectiveEntries;
    AsksIs(w, t, u, perm);
    var e :| e in EffectiveEntries(t, u) && Counts(e, perm) && m in Reach(w, e);
    assert CountsUnnamed(e, perm);
  }

  /** A delegated grant gives the unnamed check to someone who had it from neither side
      exactly when it carries the permission to them on a scope that resolves to
      nothing. */
  lemma UnnamedGainExactly(w: World, t: Tables, d: Delegation, u: User, perm: Perm)
    requires Passes(w, t, d) && KnownPerm(perm)
    requires DomainOf(perm) == MinionDomain || DomainOf(perm) == DelegateDomain
    requires !Asks(w, t, u, perm) && !Asks(w, t, d.giver, perm)
    ensures Asks(w, Granted(t, d.row), u, perm) <==>
              Touches(t, d.row, u) && Carries(d.row.role, perm) && Resolve(w, d.row.scope) == {}
  {
    hide Asks, Resolve;
    var t' := Granted(t, d.row);
    var mine := Entry(d.row.role, d.row.scope);
    AsksIs(w, t, u, perm);
    AsksIs(w, t', u, perm);
    GrantAdds(t, d.row, u);
    if Asks(w, t', u, perm) {
      var e :| e in EffectiveEntries(t', u) && CountsUnnamed(e, perm);
      EffectiveAfterGrant(t, d.row, u, e);
      GivenIsHeld(w, t, d, perm);
    }
    if Touches(t, d.row, u) && Carries(d.row.role, perm) {
      assert mine in EffectiveEntries(t', u) && CountsUnnamed(mine, perm);
    }
  }

  /** What a passing grant carries on a scope with minions, its giver passes the
      unnamed check of. */
  lemma GivenIsHeld(w: World, t: Tables, d: Delegation, perm: Perm)
    requires Passes(w, t, d) && KnownPerm(perm)
    requires DomainOf(perm) == MinionDomain || DomainOf(perm) == DelegateDomain
    ensures Carries(d.row.role, perm) && Resolve(w, d.row.scope) != {} ==> Asks(w, t, d.giver, perm)
  {
    if Carries(d.row.role, perm) && Resolve(w, d.row.scope) != {} {
      assert Wanted(d.row.role, perm);
      var m :| m in Resolve(w, d.row.scope);
      HoldingAsks(w, t, d.giver, perm, m);
    }
  }

  /** Over a run of delegated grants none of whose scopes is empty, nobody gains the
      unnamed check that neither they nor a delegator passed at the start. */
  lemma {:induction false} DelegationRunAsks(w: World, t: Tables, run: seq<Delegation>, u: User, perm: Perm)
    requires IsRun(w, t, run) && KnownPerm(perm)
    requires DomainOf(perm) == MinionDomain || DomainOf(perm) == DelegateDomain
    requires forall d :: d in run ==> Resolve(w, d.row.scope) != {}
    requires Asks(w, AfterRun(t, run), u, perm)
    ensures Asks(w, t, u, perm) || exists d :: d in run && Asks(w, t, d.giver, perm)
    decreases run
  {
    hide Asks, Passes, Resolve;
    if run != [] {
      var t' := Granted(t, run[0].row);
      DelegationRunAsks(w, t', run[1..], u, perm);
      var v := u;
      if !Asks(w, t', u, perm) {
        var d :| d in run[1..] && Asks(w, t', d.giver, perm);
        v := d.giver;
        assert d in run;
      }
      assert run[0] in run;
      if !Asks(w, t, v, perm) && !Asks(w, t, run[0].giver, perm) { UnnamedGainExactly(w, t, run[0], v, perm); }
    }
  }

  /** An empty scope: a team lead without pillar.read may appoint a secrets reader on a
      pattern that matches nothing yet. The check lets it through, the reader then
      passes pillar.read asked with no minion, which neither passed before, and holds it
      on the first minion to match, which the lead does not. */
  lemma EmptyScopeGives(w: World, later: World, lead: User, reader: User, m: Id)
    requires lead != reader && w.globs == later.globs && w.globs(m, "db*")
    requires forall i :: i in w.snapshot ==> !w.globs(i, "db*")
    requires later.snapshot == w.snapshot + {m}
    ensures var t := Tables([GrantRow(UserSubject(lead), TeamLead, GlobScope("*"))], {}, {}, [], map[], false);
            var d := Delegation(lead, GrantRow(UserSubject(reader), SecretsReader, GlobScope("db*")));
            && Passes(w, t, d)
            && !Asks(w, t, reader, PillarRead) && !Asks(w, t, lead, PillarRead)
            && Asks(w, Granted(t, d.row), reader, PillarRead)
            && Holds(later, Granted(t, d.row), reader, PillarRead, m) && !Holds(later, t, lead, PillarRead, m)
  {
    var first := GrantRow(UserSubject(lead), TeamLead, GlobScope("*"));
    var t := Tables([first], {}, {}, [], map[], false);
    var row := GrantRow(UserSubject(reader), SecretsReader, GlobScope("db*"));
    var d := Delegation(lead, row);
    OneGrant(first, lead);
    OneGrant(first, reader);
    assert Resolve(w, row.scope) == {};
    assert Carries(SecretsReader, PillarRead) && !Carries(SecretsReader, GrantAdmin);
    hide EffectiveEntries, Passes, Asks, Holds, Resolve, Carries, DomainOf;
    EmptyScopePasses(w, t, d);
    NoPillar(w, t, reader, m);
    NoPillar(w, t, lead, m);
    UnnamedGainExactly(w, t, d, reader, PillarRead) by {
      assert DomainOf(PillarRead) == MinionDomain by { PillarIsPerMinion(); }
    }
    GivenHolds(later, t, row, reader, m);
    NoPillar(later, t, lead, m);
  }

  lemma PillarIsPerMinion()
    ensures DomainOf(PillarRead) == MinionDomain
  {
  }

  /** A scope that resolves to nothing passes the subset checks of any delegator. */
  lemma EmptyScopePasses(w: World, t: Tables, d: Delegation)
    requires Delegable(d.row.scope) && Resolve(w, d.row.scope) == {}
    requires BuiltIn(d.row.role) && !FleetOnly(d.row.role) && !Carries(d.row.role, GrantAdmin)
    ensures Passes(w, t, d)
  {
    hide EffectiveEntries, Held, MinionsWith;
  }

  lemma GivenHolds(w: World, t: Tables, row: GrantRow, u: User, m: Id)
    requires row == GrantRow(UserSubject(u), SecretsReader, GlobScope("db*"))
    requires m in w.snapshot && w.globs(m, "db*")
    ensures Holds(w, Granted(t, row), u, PillarRead, m)
  {
    GrantAdds(t, row, u);
    var mine := Entry(row.role, row.scope);
    assert mine in EffectiveEntries(Granted(t, row), u) && Counts(mine, PillarRead) && m in Reach(w, mine);
  }

  lemma NoPillar(w: World, t: Tables, u: User, m: Id)
    requires forall e :: e in EffectiveEntries(t, u) ==> e.role == TeamLead
    ensures !Holds(w, t, u, PillarRead, m) && !Asks(w, t, u, PillarRead)
  {
    hide EffectiveEntries;
  }

  lemma OneGrant(row: GrantRow, u: User)
    ensures var t := Tables([row], {}, {}, [], map[], false);
            EffectiveEntries(t, u) == OwnEntry(row, u)
  {
    var t := Tables([row], {}, {}, [], map[], false);
    assert [row][1..] == [];
    EmptyAppends(OwnEntry(row, u));
    assert OwnEntries([row], u) == OwnEntry(row, u);
    var nobody: set<(Group, User)> := {};
    assert GroupEntry(row, nobody, u) == [] && GroupEntries([row][1..], nobody, u) == [];
    assert GroupEntries([row], nobody, u) == [];
    assert MappedEntries([], {}, u) == [];
    assert GrantEntries(t, u) == OwnEntry(row, u) + [] + [];
  }

  /** The same in terms of the check itself: a per-minion permission authorize grants
      after a run was authorized for that user, or for one of the delegators, before. */
  lemma DelegationRunAuthorizes(w: World, t: Tables, run: seq<Delegation>, u: User, perm: Perm, m: Id)
    requires IsRun(w, t, run) && KnownPerm(perm) && DomainOf(perm) == MinionDomain
    requires Authorized(w, EffectiveEntries(AfterRun(t, run), u), perm, Some(m), None)
    ensures || Authorized(w, EffectiveEntries(t, u), perm, Some(m), None)
            || exists d :: d in run && Authorized(w, EffectiveEntries(t, d.giver), perm, Some(m), None)
  {
    MinionDomainAgrees(w, EffectiveEntries(AfterRun(t, run), u), perm, m, None);
    MinionDomainAgrees(w, EffectiveEntries(t, u), perm, m, None);
    if HasFleet(EffectiveEntries(AfterRun(t, run), u), perm) {
      DelegationRunGivesNoFleet(w, t, run, u, perm);
    } else {
      DelegationRun(w, t, run, u, perm, m);
      if d :| d in run && Holds(w, t, d.giver, perm, m) {
        MinionDomainAgrees(w, EffectiveEntries(t, d.giver), perm, m, None);
        assert Authorized(w, EffectiveEntries(t, d.giver), perm, Some(m), None);
      }
    }
  }
}
