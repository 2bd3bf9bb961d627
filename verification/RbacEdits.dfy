/** Delegated edits of local groups beside delegated grants: what the group check lets a
    team lead do, and how far runs of such edits reach. */
module RbacEdits {
  import opened Options
  import opened RbacCatalog
  import opened RbacScopes
  import opened RbacGrants
  import opened RbacMemo

  datatype GroupError = OutsideKinds | OutsideDelegation

  /** delegate_group_error over the grants of all subjects, for an editor with the given
      effective entries: the first grant of the group that is not on a minion scope, or
      that reaches outside. */
  ghost function DelegateGroupError(w: World, entries: seq<Entry>, rows: seq<GrantRow>, g: Group): Option<GroupError> {
    if rows == [] then None
    else if rows[0].subject != GroupSubject(g) then DelegateGroupError(w, entries, rows[1..], g)
    else if !Delegable(rows[0].scope) then Some(OutsideKinds)
    else if !(Resolve(w, rows[0].scope) <= MinionsWith(w, entries, GrantDelegate)) then Some(OutsideDelegation)
    else DelegateGroupError(w, entries, rows[1..], g)
  }

  /** delegate_group_error */
  method CheckGroup(w: World, entries: seq<Entry>, rows: seq<GrantRow>, g: Group) returns (error: Option<GroupError>)
    ensures error == DelegateGroupError(w, entries, rows, g)
  {
    hide MinionsWith, Resolve;
    var within := ComputeMinionsWith(w, entries, GrantDelegate);
    for k := 0 to |rows|
      invariant DelegateGroupError(w, entries, rows, g) == DelegateGroupError(w, entries, rows[k..], g)
    {
      assert rows[k..][1..] == rows[k + 1..];
      if rows[k].subject == GroupSubject(g) {
        if !Delegable(rows[k].scope) { return Some(OutsideKinds); }
        if !(Resolve(w, rows[k].scope) <= within) { return Some(OutsideDelegation); }
      }
    }
    return None;
  }

  /** The check passes exactly when every grant of the group is on a minion scope that
      names only minions the editor may delegate on; a group without grants always
      passes. */
  lemma {:induction false} GroupPassesExactly(w: World, entries: seq<Entry>, rows: seq<GrantRow>, g: Group)
    ensures DelegateGroupError(w, entries, rows, g) == None <==>
              forall row :: row in rows && row.subject == GroupSubject(g) ==>
                && !row.scope.FleetScope? && !row.scope.PrefixScope? && !row.scope.OtherScope?
                && Resolve(w, row.scope) <= MinionsWith(w, entries, GrantDelegate)
    ensures DelegateGroupError(w, entries, rows, g) == Some(OutsideKinds) ==>
              exists row :: row in rows && row.subject == GroupSubject(g)
                            && (row.scope.FleetScope? || row.scope.PrefixScope? || row.scope.OtherScope?)
    ensures DelegateGroupError(w, entries, rows, g) == Some(OutsideDelegation) ==>
              exists row :: row in rows && row.subject == GroupSubject(g)
                            && !(Resolve(w, row.scope) <= MinionsWith(w, entries, GrantDelegate))
  {
    hide MinionsWith, Resolve;
    if rows != [] {
      GroupPassesExactly(w, entries, rows[1..], g);
      assert rows == [rows[0]] + rows[1..];
    }
  }

  // ------------------------------------------------------------------------- edits

  /** A delegated grant, or a group given a new member list. */
  datatype Edit = Give(delegation: Delegation) | Members(lead: User, group: Group, wanted: set<User>)

  function EditorOf(e: Edit): User {
    if e.Give? then e.delegation.giver else e.lead
  }

  function Relisted(members: set<(Group, User)>, g: Group, wanted: set<User>): set<(Group, User)> {
    (set p | p in members && p.0 != g) + set u | u in wanted :: (g, u)
  }

  /** The users whose role is refreshed: those listed now or before. */
  function Refreshed(t: Tables, g: Group, wanted: set<User>): set<User> {
    wanted + set p | p in t.members && p.0 == g :: p.1
  }

  /** edit_local_group_members: the new list, then the role cache of everyone on either
      list. The editor's own entries are still those the check memoized. */
  function Regrouped(t: Tables, lead: User, g: Group, wanted: set<User>): Tables {
    var now := t.(members := Relisted(t.members, g, wanted));
    var touched := Refreshed(t, g, wanted);
    now.(roles := map u | u in t.roles.Keys + touched ::
           if u in touched then CachedRole(GrantEntries(if u == lead then t else now, u)) else t.roles[u])
  }

  function Edited(t: Tables, e: Edit): Tables {
    match e
    case Give(d) => Granted(t, d.row)
    case Members(lead, g, wanted) => Regrouped(t, lead, g, wanted)
  }

  ghost predicate EditPasses(w: World, t: Tables, e: Edit) {
    match e
    case Give(d) => Passes(w, t, d)
    case Members(lead, g, _) => DelegateGroupError(w, EffectiveEntries(t, lead), t.grants, g) == None
  }

  ghost predicate IsEditRun(w: World, t: Tables, run: seq<Edit>)
    decreases run
  {
    run == [] || (EditPasses(w, t, run[0]) && IsEditRun(w, Edited(t, run[0]), run[1..]))
  }

  function AfterEdits(t: Tables, run: seq<Edit>): Tables
    decreases run
  {
    if run == [] then t else AfterEdits(Edited(t, run[0]), run[1..])
  }

  /** A new member list changes who is in that one group, and caches a role afresh for
      those it adds, keeps or drops, and for nobody else. */
  lemma RegroupMeans(t: Tables, lead: User, g: Group, wanted: set<User>, h: Group, u: User)
    ensures var after := Regrouped(t, lead, g, wanted);
            && after == t.(members := after.members, roles := after.roles)
            && ((h, u) in after.members <==> if h == g then u in wanted else (h, u) in t.members)
            && RoleColumn(after, u)
               == if u in wanted || (g, u) in t.members then CachedRole(GrantEntries(if u == lead then t else after, u))
                  else RoleColumn(t, u)
  {
    hide CachedRole, GrantEntries;
    var after := Regrouped(t, lead, g, wanted);
    if h == g && u in wanted { assert (g, u) in after.members; }
    if (g, u) in t.members { assert (g, u).1 in Refreshed(t, g, wanted); }
    SameMemberships(t.(members := Relisted(t.members, g, wanted)), after, u);
  }

  /** Where the entries of a user come from after a new member list: from before, or from
      a grant of the group the user is now in. */
  lemma EntriesAfter(t: Tables, lead: User, g: Group, wanted: set<User>, u: User, e: Entry)
    ensures var after := Regrouped(t, lead, g, wanted);
            e in GrantEntries(after, u) ==>
              e in GrantEntries(t, u) || (u in wanted && GrantRow(GroupSubject(g), e.role, e.scope) in t.grants)
    ensures var after := Regrouped(t, lead, g, wanted);
            u !in Refreshed(t, g, wanted) ==> GrantEntries(after, u) == GrantEntries(t, u)
    ensures var after := Regrouped(t, lead, g, wanted);
            u in wanted && GrantRow(GroupSubject(g), e.role, e.scope) in t.grants ==> e in GrantEntries(after, u)
    ensures var after := Regrouped(t, lead, g, wanted);
            e in GrantEntries(t, u) && !Delegable(e.scope)
            && (forall row :: row in t.grants && row.subject == GroupSubject(g) ==> Delegable(row.scope)) ==>
              e in GrantEntries(after, u)
  {
    hide CachedRole, EffectiveEntries, GrantEntries;
    var after := Regrouped(t, lead, g, wanted);
    EntriesMean(t, u, e);
    EntriesMean(after, u, e);
    forall h ensures (h, u) in after.members <==> if h == g then u in wanted else (h, u) in t.members {
      if u in wanted && h == g { assert (g, u) in after.members; }
    }
    if (g, u) in t.members { assert (g, u).1 in Refreshed(t, g, wanted); }
    if u !in Refreshed(t, g, wanted) { SameMemberships(t, after, u); }
  }

  /** Entries depend on the groups a user is in. */
  lemma SameMemberships(t: Tables, after: Tables, u: User)
    requires after.grants == t.grants && after.idpGroups == t.idpGroups && after.mappings == t.mappings
    requires forall h :: (h, u) in after.members <==> (h, u) in t.members
    ensures GrantEntries(after, u) == GrantEntries(t, u)
  {
    SameGroupEntries(t.grants, t.members, after.members, u);
  }

  lemma {:induction false} SameGroupEntries(rows: seq<GrantRow>, a: set<(Group, User)>, b: set<(Group, User)>, u: User)
    requires forall h :: (h, u) in a <==> (h, u) in b
    ensures GroupEntries(rows, a, u) == GroupEntries(rows, b, u)
  {
    if rows != [] { SameGroupEntries(rows[1..], a, b, u); }
  }

  /** The ladder fallback gives nothing new: whoever is left without an entry has no
      ladder role in the column any more, or had none of their own before either. */
  lemma NoFallback(w: World, t: Tables, lead: User, g: Group, wanted: set<User>, u: User)
    requires DelegateGroupError(w, EffectiveEntries(t, lead), t.grants, g) == None
    ensures var after := Regrouped(t, lead, g, wanted);
            GrantEntries(after, u) == [] && u in after.roles && IsLadder(after.roles[u]) ==>
              GrantEntries(t, u) == [] && u in t.roles && after.roles[u] == t.roles[u]
  {
    hide GrantEntries, EffectiveEntries, Resolve, MinionsWith;
    var after := Regrouped(t, lead, g, wanted);
    var now := t.(members := Relisted(t.members, g, wanted));
    GroupPassesExactly(w, EffectiveEntries(t, lead), t.grants, g);
    SameMemberships(now, after, u);
    if GrantEntries(after, u) == [] && u in after.roles && IsLadder(after.roles[u]) {
      if u in Refreshed(t, g, wanted) {
        CachedRoleIs(GrantEntries(if u == lead then t else now, u));
        var e := Entry(after.roles[u], FleetScope);
        EntriesAfter(t, lead, g, wanted, u, e);
        assert false;
      } else {
        EntriesAfter(t, lead, g, wanted, u, Entry(Viewer, FleetScope));
      }
    }
  }

  /** What is effective after an edit that passed was effective before, or names only
      minions the editor may delegate on. */
  lemma EffectiveAfterEdit(w: World, t: Tables, edit: Edit, u: User, e: Entry)
    requires EditPasses(w, t, edit) && e in EffectiveEntries(Edited(t, edit), u)
    ensures || e in EffectiveEntries(t, u)
            || (Delegable(e.scope)
                && Resolve(w, e.scope) <= MinionsWith(w, EffectiveEntries(t, EditorOf(edit)), GrantDelegate))
  {
    hide GrantEntries, EffectiveEntries, Resolve, MinionsWith, Held;
    match edit
    case Give(d) =>
      EffectiveAfterGrant(t, d.row, u, e);
    case Members(lead, g, wanted) =>
      var after := Regrouped(t, lead, g, wanted);
      GroupPassesExactly(w, EffectiveEntries(t, lead), t.grants, g);
      EntriesMean(t, u, e);
      EntriesMean(after, u, e);
      EntriesAfter(t, lead, g, wanted, u, e);
      NoFallback(w, t, lead, g, wanted, u);
  }

  /** One edit: whatever a user then holds on a minion they held before, or the editor
      could delegate there. */
  lemma EditStep(w: World, t: Tables, edit: Edit, u: User, perm: Perm, m: Id)
    requires EditPasses(w, t, edit)
    requires DomainOf(perm) == MinionDomain || DomainOf(perm) == DelegateDomain
    requires Holds(w, Edited(t, edit), u, perm, m)
    ensures Holds(w, t, u, perm, m) || Holds(w, t, EditorOf(edit), GrantDelegate, m)
  {
    hide EffectiveEntries, Resolve, EditPasses, Edited, Carries;
    var after := EffectiveEntries(Edited(t, edit), u);
    var e :| e in after && Counts(e, perm) && m in Reach(w, e);
    EffectiveAfterEdit(w, t, edit, u, e);
  }

  /** Delegation stays inside, over whole runs of grants and member lists: what u holds on a
      minion at the end and did not at the start is on a minion where one of the
      editors could delegate at the start. */
  lemma {:induction false} EditRun(w: World, t: Tables, run: seq<Edit>, u: User, perm: Perm, m: Id)
    requires IsEditRun(w, t, run)
    requires DomainOf(perm) == MinionDomain || DomainOf(perm) == DelegateDomain
    requires Holds(w, AfterEdits(t, run), u, perm, m)
    ensures Holds(w, t, u, perm, m) || exists e :: e in run && Holds(w, t, EditorOf(e), GrantDelegate, m)
    decreases run
  {
    hide Holds, Edited, EditPasses;
    if run != [] {
      var t' := Edited(t, run[0]);
      EditRun(w, t', run[1..], u, perm, m);
      assert run[0] in run;
      if Holds(w, t', u, perm, m) {
        EditStep(w, t, run[0], u, perm, m);
      } else {
        var e :| e in run[1..] && Holds(w, t', EditorOf(e), GrantDelegate, m);
        assert e in run;
        EditStep(w, t, run[0], EditorOf(e), GrantDelegate, m);
      }
    }
  }

  /** Nor does such a run give anybody the whole fleet, a fleet-wide action or a path. */
  lemma {:induction false} EditRunGivesNoFleet(w: World, t: Tables, run: seq<Edit>, u: User, perm: Perm,
                                              path: Option<string>)
    requires IsEditRun(w, t, run)
    ensures HasFleet(EffectiveEntries(AfterEdits(t, run), u), perm) ==> HasFleet(EffectiveEntries(t, u), perm)
    ensures DomainOf(perm) == PrefixDomain
            && Authorized(w, EffectiveEntries(AfterEdits(t, run), u), perm, None, path) ==>
              Authorized(w, EffectiveEntries(t, u), perm, None, path)
    decreases run
  {
    hide EffectiveEntries, Edited, EditPasses, HasFleet, Authorized;
    if run != [] {
      EditRunGivesNoFleet(w, Edited(t, run[0]), run[1..], u, perm, path);
      EditGivesNoFleet(w, t, run[0], u, perm, path);
    }
  }

  lemma EditGivesNoFleet(w: World, t: Tables, edit: Edit, u: User, perm: Perm, path: Option<string>)
    requires EditPasses(w, t, edit)
    ensures HasFleet(EffectiveEntries(Edited(t, edit), u), perm) ==> HasFleet(EffectiveEntries(t, u), perm)
    ensures DomainOf(perm) == PrefixDomain
            && Authorized(w, EffectiveEntries(Edited(t, edit), u), perm, None, path) ==>
              Authorized(w, EffectiveEntries(t, u), perm, None, path)
  {
    hide EffectiveEntries, Edited, EditPasses, Carries;
    var after := EffectiveEntries(Edited(t, edit), u);
    if HasFleet(after, perm) {
      var e :| e in after && Carries(e.role, perm) && e.scope.FleetScope?;
      EffectiveAfterEdit(w, t, edit, u, e);
    }
    if DomainOf(perm) == PrefixDomain && Authorized(w, after, perm, None, path) {
      var e :| e in after && EntryCovers(w, e, perm, None, path);
      EffectiveAfterEdit(w, t, edit, u, e);
    }
  }

  // --------------------------------------------- what a member list can hand on

  /** The editor holds, wherever the row's scope reaches, what its role carries there:
      the comparison a delegated grant would have to pass. */
  ghost predicate Covered(w: World, t: Tables, lead: User, row: GrantRow) {
    FleetOnly(row.role)
    || forall perm :: Wanted(row.role, perm) ==> Resolve(w, row.scope) <= Held(w, EffectiveEntries(t, lead), perm)
  }

  /** The edit gives u a permission on m that neither u nor the editor held there. */
  ghost predicate Widens(w: World, t: Tables, edit: Edit, u: User, perm: Perm, m: Id) {
    && (DomainOf(perm) == MinionDomain || DomainOf(perm) == DelegateDomain)
    && Holds(w, Edited(t, edit), u, perm, m)
    && !Holds(w, t, u, perm, m) && !Holds(w, t, EditorOf(edit), perm, m)
  }

  lemma Bound(s: set<int>) returns (b: int)
    ensures forall x :: x in s ==> x < b
    decreases |s|
  {
    b := 0;
    if x :| x in s {
      var c := Bound(s - {x});
      b := if x < c then c else x + 1;
      forall y | y in s ensures y < b { if y != x { assert y in s - {x}; } }
    }
  }

  /** There is always a user the tables say nothing of. */
  lemma Stranger(t: Tables) returns (u: User)
    ensures GrantEntries(t, u) == [] && EffectiveEntries(t, u) == []
  {
    var members := set p | p in t.members :: p.1;
    var idp := set p | p in t.idpGroups :: p.0;
    var owners := set row | row in t.grants && row.subject.UserSubject? :: row.subject.user;
    u := Bound(members + idp + owners + t.roles.Keys);
    forall p | p in t.members ensures p.1 != u { assert p.1 in members; }
    forall p | p in t.idpGroups ensures p.0 != u { assert p.0 in idp; }
    forall row | row in t.grants ensures row.subject != UserSubject(u) {
      assert row.subject.UserSubject? ==> row.subject.user in owners;
    }
    hide GrantEntries;
    if GrantEntries(t, u) != [] { SomeIn(GrantEntries(t, u)); }
    forall e ensures e !in GrantEntries(t, u) { EntriesMean(t, u, e); }
  }

  lemma SomeIn(entries: seq<Entry>)
    requires entries != []
    ensures exists e :: e in entries
  {
    assert entries[0] in entries;
  }

  /** A member list that passes its check keeps to what the editor holds exactly when
      the editor covers every grant of the group, and otherwise hands on more than that
      to anyone new who is put on it. The check itself compares scopes only. */
  lemma MembersKeepExactly(w: World, t: Tables, lead: User, g: Group)
    requires DelegateGroupError(w, EffectiveEntries(t, lead), t.grants, g) == None
    ensures (forall wanted, u, perm, m :: !Widens(w, t, Members(lead, g, wanted), u, perm, m)) <==>
            (forall row :: row in t.grants && row.subject == GroupSubject(g) ==> Covered(w, t, lead, row))
  {
    hide Covered, Holds, DomainOf, Regrouped;
    if forall row :: row in t.grants && row.subject == GroupSubject(g) ==> Covered(w, t, lead, row) {
      forall wanted, u, perm, m ensures !Widens(w, t, Members(lead, g, wanted), u, perm, m) {
        if (DomainOf(perm) == MinionDomain || DomainOf(perm) == DelegateDomain)
           && Holds(w, Edited(t, Members(lead, g, wanted)), u, perm, m) {
          CoveredKeeps(w, t, lead, g, wanted, u, perm, m);
        }
      }
    } else {
      var row :| row in t.grants && row.subject == GroupSubject(g) && !Covered(w, t, lead, row);
      var u, perm, m := UncoveredWidens(w, t, lead, g, row);
    }
  }

  lemma CoveredKeeps(w: World, t: Tables, lead: User, g: Group, wanted: set<User>, u: User, perm: Perm, m: Id)
    requires DelegateGroupError(w, EffectiveEntries(t, lead), t.grants, g) == None
    requires forall row :: row in t.grants && row.subject == GroupSubject(g) ==> Covered(w, t, lead, row)
    requires DomainOf(perm) == MinionDomain || DomainOf(perm) == DelegateDomain
    requires Holds(w, Regrouped(t, lead, g, wanted), u, perm, m)
    ensures Holds(w, t, u, perm, m) || Holds(w, t, lead, perm, m)
  {
    hide GrantEntries, EffectiveEntries, Resolve, Held, Carries, DomainOf;
    var e := HeldThrough(w, EffectiveEntries(Regrouped(t, lead, g, wanted), u), perm, m);
    if e !in EffectiveEntries(t, u) {
      NewIsOfGroup(w, t, lead, g, wanted, u, e);
      var row := GrantRow(GroupSubject(g), e.role, e.scope);
      assert Covered(w, t, lead, row);
      assert Wanted(row.role, perm);
    } else {
      HeldFrom(w, EffectiveEntries(t, u), perm, m, e);
    }
  }

  /** A new entry that is not on the fleet comes from a grant of the group. */
  lemma NewIsOfGroup(w: World, t: Tables, lead: User, g: Group, wanted: set<User>, u: User, e: Entry)
    requires DelegateGroupError(w, EffectiveEntries(t, lead), t.grants, g) == None
    requires e in EffectiveEntries(Regrouped(t, lead, g, wanted), u) && e !in EffectiveEntries(t, u)
    ensures GrantRow(GroupSubject(g), e.role, e.scope) in t.grants && Delegable(e.scope)
  {
    hide GrantEntries, EffectiveEntries, Resolve, MinionsWith, Regrouped;
    var after := Regrouped(t, lead, g, wanted);
    GroupPassesExactly(w, EffectiveEntries(t, lead), t.grants, g);
    EntriesMean(t, u, e);
    EntriesMean(after, u, e);
    EntriesAfter(t, lead, g, wanted, u, e);
    NoFallback(w, t, lead, g, wanted, u);
    assert after.fallback == t.fallback by { SameFallback(t, lead, g, wanted); }
  }

  lemma SameFallback(t: Tables, lead: User, g: Group, wanted: set<User>)
    ensures Regrouped(t, lead, g, wanted).fallback == t.fallback
  {
  }

  /** A permission held on a minion is held through an entry that counts and reaches it. */
  lemma HeldThrough(w: World, entries: seq<Entry>, perm: Perm, m: Id) returns (e: Entry)
    requires m in Held(w, entries, perm)
    ensures e in entries && Counts(e, perm) && m in Reach(w, e)
  {
    hide Carries, Resolve;
    e :| e in entries && Counts(e, perm) && m in Reach(w, e);
  }

  lemma HeldFrom(w: World, entries: seq<Entry>, perm: Perm, m: Id, e: Entry)
    requires DomainOf(perm) == MinionDomain || DomainOf(perm) == DelegateDomain
    requires e in entries && Counts(e, perm) && m in Reach(w, e)
    ensures m in Held(w, entries, perm)
  {
    hide Carries, Resolve;
  }

  /** Someone new on the list holds through an uncovered grant what the editor does not. */
  lemma UncoveredWidens(w: World, t: Tables, lead: User, g: Group, row: GrantRow) returns (u: User, perm: Perm, m: Id)
    requires DelegateGroupError(w, EffectiveEntries(t, lead), t.grants, g) == None
    requires row in t.grants && row.subject == GroupSubject(g) && !Covered(w, t, lead, row)
    ensures Widens(w, t, Members(lead, g, {u}), u, perm, m)
  {
    hide GrantEntries, EffectiveEntries, Resolve, Held, Carries, DomainOf, MinionsWith;
    perm :| Wanted(row.role, perm) && !(Resolve(w, row.scope) <= Held(w, EffectiveEntries(t, lead), perm));
    m :| m in Resolve(w, row.scope) && m !in Held(w, EffectiveEntries(t, lead), perm);
    u := Stranger(t);
    var after := Regrouped(t, lead, g, {u});
    var e := Entry(row.role, row.scope);
    EntriesAfter(t, lead, g, {u}, u, e);
    EntriesMean(after, u, e);
    GroupPassesExactly(w, EffectiveEntries(t, lead), t.grants, g);
    HeldFrom(w, EffectiveEntries(after, u), perm, m, e) by { DomainsLeft(perm); }
    if m in Held(w, EffectiveEntries(t, u), perm) {
      var d := HeldThrough(w, EffectiveEntries(t, u), perm, m);
    }
    DomainsLeft(perm);
  }

  lemma DomainsLeft(perm: Perm)
    requires DomainOf(perm) != FleetDomain && DomainOf(perm) != PrefixDomain
    ensures DomainOf(perm) == MinionDomain || DomainOf(perm) == DelegateDomain
  {
  }
}
