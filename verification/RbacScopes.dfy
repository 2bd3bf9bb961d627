/** The scoped evaluator: grant entries, what an entry covers, and the fast forms of
    the same question (has_fleet, minions_with, perm_scope_minions, visible_prefixes),
    proved to agree with it. */
module RbacScopes {
  import opened Options
  import opened Text
  import opened RbacCatalog

  type Id = string

  /** scope_kind and scope_value of a grant. */
  datatype Scope =
    | FleetScope
    | PrefixScope(path: string)
    | GroupScope(group: string)
    | ListScope(json: string)
    | GlobScope(pattern: string)
    | GrainScope(expr: string)
    | OtherScope(kind: string)

  /** (role, scope_kind, scope_value) */
  datatype Entry = Entry(role: Role, scope: Scope)

  /** The minion snapshot and the group tables at one moment; glob and grain
      matching and the JSON reading of list scopes are parameters. */
  datatype World = World(
    snapshot: set<Id>,
    scopeGroups: map<string, set<string>>,         // minion groups by stored id
    jobGroups: map<string, set<string>>,           // minion groups by name
    globs: (Id, string) -> bool,                   // fnmatchcase(id, pattern)
    grains: (Id, string) -> bool,                  // match_grain(grains of id, expr)
    jsonList: string -> Option<seq<string>>)       // json.loads, when it is a list

  function GroupMembers(groups: map<string, set<string>>, name: string): set<string> {
    if name in groups then groups[name] else {}
  }

  /** _resolve_scope: the snapshot ids a non-fleet scope names. */
  function Resolve(w: World, scope: Scope): (ids: set<Id>)
    ensures ids <= w.snapshot
  {
    match scope
    case GroupScope(g) => GroupMembers(w.scopeGroups, g) * w.snapshot
    case ListScope(json) =>
      var items := w.jsonList(json);
      if items.None? then {} else (set i | i in items.value && Strip(i) != "" :: Strip(i)) * w.snapshot
    case GlobScope(pattern) => set m | m in w.snapshot && w.globs(m, pattern)
    case GrainScope(expr) => set m | m in w.snapshot && w.grains(m, expr)
    case _ => {}
  }

  /** A path lies at or under another. */
  predicate Under(path: string, root: string) {
    path == root || root + "/" <= path
  }

  /** _entry_covers */
  predicate EntryCovers(w: World, e: Entry, perm: Perm, minion: Option<Id>, prefix: Option<string>) {
    if !Carries(e.role, perm) then false
    else if FleetOnly(e.role) && !e.scope.FleetScope? then false
    else match DomainOf(perm)
      case FleetDomain => e.scope.FleetScope?
      case DelegateDomain => true
      case PrefixDomain =>
        if e.scope.FleetScope? then true
        else if !e.scope.PrefixScope? || e.scope.path == "" then false
        else prefix.None? || Under(prefix.value, e.scope.path)
      case MinionDomain =>
        if e.scope.FleetScope? then true
        else if e.scope.PrefixScope? then false
        else minion.None? || minion.value in Resolve(w, e.scope)
  }

  /** authorize, evaluated fresh over the caller's effective entries. */
  predicate Authorized(w: World, entries: seq<Entry>, perm: Perm, minion: Option<Id>, prefix: Option<string>) {
    KnownPerm(perm) && exists e :: e in entries && EntryCovers(w, e, perm, minion, prefix)
  }

  /** has_fleet */
  predicate HasFleet(entries: seq<Entry>, perm: Perm) {
    KnownPerm(perm) && exists e :: e in entries && Carries(e.role, perm) && e.scope.FleetScope?
  }

  /** An entry counts toward the minion sets of a permission: its role carries it and
      the fleet-only rule lets its scope stand. */
  predicate Counts(e: Entry, perm: Perm) {
    Carries(e.role, perm) && (FleetOnly(e.role) ==> e.scope.FleetScope?)
  }

  function Reach(w: World, e: Entry): (ids: set<Id>)
    ensures ids <= w.snapshot
  {
    if e.scope.FleetScope? then w.snapshot else Resolve(w, e.scope)
  }

  /** The snapshot ids inside the scopes of entries that count for perm. */
  function ScopeMinions(w: World, entries: seq<Entry>, perm: Perm): set<Id> {
    set m | m in w.snapshot && exists e :: e in entries && Counts(e, perm) && m in Reach(w, e)
  }

  /** What minions_with returns. */
  function MinionsWith(w: World, entries: seq<Entry>, perm: Perm): set<Id> {
    if DomainOf(perm) == MinionDomain then ScopeMinions(w, entries, perm) else {}
  }

  lemma ScopeMinionsSnoc(w: World, entries: seq<Entry>, e: Entry, perm: Perm)
    ensures ScopeMinions(w, entries + [e], perm)
         == ScopeMinions(w, entries, perm) + if Counts(e, perm) then Reach(w, e) else {}
  {
    assert forall d :: d in entries + [e] <==> d in entries || d == e;
  }

  /** minions_with: the accumulating loop. */
  method ComputeMinionsWith(w: World, entries: seq<Entry>, perm: Perm) returns (ids: set<Id>)
    ensures ids == MinionsWith(w, entries, perm)
  {
    ids := {};
    for k := 0 to |entries|
      invariant ids == MinionsWith(w, entries[..k], perm)
    {
      var e := entries[k];
      assert entries[..k + 1] == entries[..k] + [e];
      ScopeMinionsSnoc(w, entries[..k], e, perm);
      if !Carries(e.role, perm) { continue; }
      if FleetOnly(e.role) && !e.scope.FleetScope? { continue; }
      if DomainOf(perm) != MinionDomain { continue; }
      if e.scope.FleetScope? {
        ids := ids + w.snapshot;
      } else if !e.scope.PrefixScope? {
        ids := ids + Resolve(w, e.scope);
      }
    }
    assert entries[..|entries|] == entries;
  }

  /** perm_scope_minions: the same loop without the domain test. */
  method ComputeScopeMinions(w: World, entries: seq<Entry>, perm: Perm) returns (ids: set<Id>)
    ensures ids == ScopeMinions(w, entries, perm)
  {
    ids := {};
    for k := 0 to |entries|
      invariant ids == ScopeMinions(w, entries[..k], perm)
    {
      var e := entries[k];
      assert entries[..k + 1] == entries[..k] + [e];
      ScopeMinionsSnoc(w, entries[..k], e, perm);
      if !Carries(e.role, perm) { continue; }
      if FleetOnly(e.role) && !e.scope.FleetScope? { continue; }
      if e.scope.FleetScope? {
        ids := ids + w.snapshot;
      } else if !e.scope.PrefixScope? {
        ids := ids + Resolve(w, e.scope);
      }
    }
    assert entries[..|entries|] == entries;
    ids := ids * w.snapshot;
  }

  // --------------------------------------------------------- the evaluators agree

  /** Minion domain: the per-minion check holds for a fleet grant or inside the
      minion set, and nowhere else. */
  lemma MinionDomainAgrees(w: World, entries: seq<Entry>, perm: Perm, m: Id, prefix: Option<string>)
    requires DomainOf(perm) == MinionDomain && KnownPerm(perm)
    ensures Authorized(w, entries, perm, Some(m), prefix)
            <==> HasFleet(entries, perm) || m in MinionsWith(w, entries, perm)
    ensures MinionsWith(w, entries, perm) == ScopeMinions(w, entries, perm)
  {
    if Authorized(w, entries, perm, Some(m), prefix) {
      var e :| e in entries && EntryCovers(w, e, perm, Some(m), prefix);
      assert Counts(e, perm) && (e.scope.FleetScope? || m in Reach(w, e));
    }
    if m in MinionsWith(w, entries, perm) {
      var e :| e in entries && Counts(e, perm) && m in Reach(w, e);
      assert EntryCovers(w, e, perm, Some(m), prefix);
    }
    if HasFleet(entries, perm) {
      var e :| e in entries && Carries(e.role, perm) && e.scope.FleetScope?;
      assert EntryCovers(w, e, perm, Some(m), prefix);
    }
  }

  /** Fleet domain: whatever minion or path is asked about, only a fleet grant
      counts. */
  lemma FleetDomainAgrees(w: World, entries: seq<Entry>, perm: Perm, minion: Option<Id>, prefix: Option<string>)
    requires DomainOf(perm) == FleetDomain
    ensures Authorized(w, entries, perm, minion, prefix) <==> HasFleet(entries, perm)
  {
    forall e | e in entries
      ensures EntryCovers(w, e, perm, minion, prefix) <==> Carries(e.role, perm) && e.scope.FleetScope?
    {
    }
  }

  // ------------------------------------------------------- what one entry grants

  /** The snapshot ids a scope names: those in the stored group, those in the list once
      its items are stripped, those the glob or the grain expression matches. */
  lemma ScopeNames(w: World, scope: Scope, m: Id)
    ensures m in Resolve(w, scope) <==>
              m in w.snapshot && match scope
              case GroupScope(g) => g in w.scopeGroups && m in w.scopeGroups[g]
              case ListScope(json) =>
                m != "" && w.jsonList(json).Some? && exists i :: i in w.jsonList(json).value && Strip(i) == m
              case GlobScope(pattern) => w.globs(m, pattern)
              case GrainScope(expr) => w.grains(m, expr)
              case _ => false
  {
  }

  /** The evaluators of a one-entry list, unfolded. */
  lemma OneEntry(w: World, e: Entry, perm: Perm, minion: Option<Id>, prefix: Option<string>)
    ensures Authorized(w, [e], perm, minion, prefix) <==> KnownPerm(perm) && EntryCovers(w, e, perm, minion, prefix)
    ensures HasFleet([e], perm) <==> KnownPerm(perm) && Carries(e.role, perm) && e.scope.FleetScope?
    ensures ScopeMinions(w, [e], perm) == if Counts(e, perm) then Reach(w, e) else {}
  {
    hide EntryCovers, Carries, KnownPerm, Counts;
    assert e in [e] && forall d :: d in [e] <==> d == e;
  }

  /** What one entry grants of a permission asked minion by minion: a role held on the
      fleet alone counts on no other scope, a path scope covers no minion, and any
      other scope covers the snapshot ids it names. The minion sets hold the same ids. */
  lemma MinionEntryMeans(w: World, e: Entry, perm: Perm, m: Id, prefix: Option<string>)
    requires KnownPerm(perm) && DomainOf(perm) == MinionDomain
    ensures var counts := Carries(e.role, perm) && (FleetOnly(e.role) ==> e.scope.FleetScope?);
            var named := counts && m in w.snapshot && match e.scope
                         case FleetScope => true
                         case GroupScope(g) => g in w.scopeGroups && m in w.scopeGroups[g]
                         case ListScope(json) =>
                           m != "" && w.jsonList(json).Some? && exists i :: i in w.jsonList(json).value && Strip(i) == m
                         case GlobScope(pattern) => w.globs(m, pattern)
                         case GrainScope(expr) => w.grains(m, expr)
                         case _ => false;
            && (Authorized(w, [e], perm, Some(m), prefix) <==> named || (counts && e.scope == FleetScope))
            && (m in MinionsWith(w, [e], perm) <==> named)
            && (m in ScopeMinions(w, [e], perm) <==> named)
            && (Authorized(w, [e], perm, None, prefix) <==> counts && !e.scope.PrefixScope?)
  {
    OneEntry(w, e, perm, Some(m), prefix);
    OneEntry(w, e, perm, None, prefix);
    if !e.scope.FleetScope? { ScopeNames(w, e.scope, m); }
    hide Carries, FleetOnly, Resolve, DomainOf, Authorized, ScopeMinions;
  }

  /** What one entry grants of the other permissions, whatever minion is named: a file
      permission covers the granted path and what lies below it, a fleet-wide one needs
      the fleet scope, and reading users or the audit trail any scope. */
  lemma OtherEntryMeans(w: World, e: Entry, perm: Perm, minion: Option<Id>, prefix: Option<string>)
    requires KnownPerm(perm) && DomainOf(perm) != MinionDomain
    ensures var counts := Carries(e.role, perm) && (FleetOnly(e.role) ==> e.scope.FleetScope?);
            Authorized(w, [e], perm, minion, prefix) <==>
              && counts
              && (|| e.scope == FleetScope
                  || perm in {UserRead, AuditRead}
                  || (perm in {FileRead, FileWrite} && e.scope.PrefixScope? && e.scope.path != ""
                      && (prefix.None? || prefix.value == e.scope.path || e.scope.path + "/" <= prefix.value)))
    ensures MinionsWith(w, [e], perm) == {}
  {
    OneEntry(w, e, perm, minion, prefix);
    hide Carries, FleetOnly, Resolve, Authorized, ScopeMinions;
  }

  /** Grants add up: a list of entries grants what some entry of it grants alone. */
  lemma EntriesAddUp(w: World, entries: seq<Entry>, perm: Perm, minion: Option<Id>, prefix: Option<string>)
    ensures Authorized(w, entries, perm, minion, prefix)
            <==> exists e :: e in entries && Authorized(w, [e], perm, minion, prefix)
  {
    hide EntryCovers, KnownPerm;
    if Authorized(w, entries, perm, minion, prefix) {
      var e :| e in entries && EntryCovers(w, e, perm, minion, prefix);
      OneEntry(w, e, perm, minion, prefix);
    }
    if e :| e in entries && Authorized(w, [e], perm, minion, prefix) {
      OneEntry(w, e, perm, minion, prefix);
    }
  }

  /** The minion sets of a list of entries are the unions of those of its entries, and
      a fleet grant among them is one of them. */
  lemma MinionsAddUp(w: World, entries: seq<Entry>, perm: Perm, m: Id)
    ensures m in ScopeMinions(w, entries, perm) <==> exists e :: e in entries && m in ScopeMinions(w, [e], perm)
    ensures m in MinionsWith(w, entries, perm) <==> exists e :: e in entries && m in MinionsWith(w, [e], perm)
    ensures HasFleet(entries, perm) <==> exists e :: e in entries && HasFleet([e], perm)
  {
    hide Carries, Counts, Reach, DomainOf, KnownPerm;
    forall e | e in entries
      ensures m in ScopeMinions(w, [e], perm) <==> Counts(e, perm) && m in Reach(w, e)
      ensures HasFleet([e], perm) <==> KnownPerm(perm) && Carries(e.role, perm) && e.scope.FleetScope?
    {
      OneEntry(w, e, perm, None, None);
    }
  }

  // ------------------------------------------------------------------- file prefixes

  predicate ShowsFiles(e: Entry) {
    e.scope.PrefixScope? && e.scope.path != "" && (Carries(e.role, FileRead) || Carries(e.role, FileWrite))
  }

  function PrefixesOf(entries: seq<Entry>): set<string> {
    set e | e in entries && ShowsFiles(e) :: e.scope.path
  }

  /** What visible_prefixes returns: None for the whole tree. */
  function VisiblePrefixes(entries: seq<Entry>): Option<seq<string>> {
    if HasFleet(entries, FileRead) || HasFleet(entries, FileWrite) then None
    else Some(Sorted(PrefixesOf(entries)))
  }

  /** A path is listed: the whole tree is visible, or prefix_visible says so. */
  predicate Listed(entries: seq<Entry>, path: string) {
    var prefixes := VisiblePrefixes(entries);
    prefixes.None? || exists p :: p in prefixes.value && Under(path, p)
  }

  /** visible_prefixes: the accumulating loop. */
  method ComputeVisiblePrefixes(entries: seq<Entry>) returns (prefixes: Option<seq<string>>)
    ensures prefixes == VisiblePrefixes(entries)
  {
    if HasFleet(entries, FileRead) { return None; }
    if HasFleet(entries, FileWrite) { return None; }
    var paths: set<string> := {};
    for k := 0 to |entries|
      invariant paths == PrefixesOf(entries[..k])
    {
      var e := entries[k];
      assert entries[..k + 1] == entries[..k] + [e];
      if !e.scope.PrefixScope? || e.scope.path == "" { continue; }
      if Carries(e.role, FileRead) || Carries(e.role, FileWrite) {
        paths := paths + {e.scope.path};
      }
    }
    assert entries[..|entries|] == entries;
    return Some(Sorted(paths));
  }

  predicate MayRead(w: World, entries: seq<Entry>, path: string) {
    Authorized(w, entries, FileRead, None, Some(path))
  }

  /** A fleet-only role granted on a path: listed by visible_prefixes, ignored by
      authorize. */
  predicate Stray(e: Entry) {
    ShowsFiles(e) && FleetOnly(e.role)
  }

  lemma UnderTransitive(a: string, b: string, c: string)
    requires Under(a, b) && Under(b, c)
    ensures Under(a, c)
  {
    if a != b && b != c {
      assert c + "/" <= b <= b + "/" <= a;
    }
  }

  /** Every readable path is listed; a listed path is readable or lies under a stray
      grant. */
  lemma ListedIs(w: World, entries: seq<Entry>, path: string)
    ensures Listed(entries, path) <==>
              MayRead(w, entries, path) || exists e :: e in entries && Stray(e) && Under(path, e.scope.path)
  {
    forall e | e in entries ensures Carries(e.role, FileWrite) ==> Carries(e.role, FileRead) { WritersRead(e.role); }
    assert HasFleet(entries, FileWrite) ==> HasFleet(entries, FileRead);
    if HasFleet(entries, FileRead) {
      var e :| e in entries && Carries(e.role, FileRead) && e.scope.FleetScope?;
      assert EntryCovers(w, e, FileRead, None, Some(path));
    } else {
      hide Carries, Under, HasFleet;
      if Listed(entries, path) {
        var p :| p in Sorted(PrefixesOf(entries)) && Under(path, p);
        var e :| e in entries && ShowsFiles(e) && p == e.scope.path;
        ShownCovers(w, e, path);
        assert !Stray(e) ==> MayRead(w, entries, path);
      }
      if MayRead(w, entries, path) {
        var e :| e in entries && EntryCovers(w, e, FileRead, None, Some(path));
        CoversShown(w, entries, e, path);
        assert e.scope.path in Sorted(PrefixesOf(entries));
      }
      if e :| e in entries && Stray(e) && Under(path, e.scope.path) {
        assert e.scope.path in PrefixesOf(entries);
      }
    }
  }

  lemma ShownCovers(w: World, e: Entry, path: string)
    requires ShowsFiles(e) && Under(path, e.scope.path) && (Carries(e.role, FileWrite) ==> Carries(e.role, FileRead))
    ensures Stray(e) || EntryCovers(w, e, FileRead, None, Some(path))
  {
  }

  lemma CoversShown(w: World, entries: seq<Entry>, e: Entry, path: string)
    requires e in entries && !HasFleet(entries, FileRead) && EntryCovers(w, e, FileRead, None, Some(path))
    ensures ShowsFiles(e) && Under(path, e.scope.path)
  {
  }

  /** Listing and reading agree on every path exactly when each stray grant's own
      path is readable through some other grant. */
  lemma ListingAgreesExactly(w: World, entries: seq<Entry>)
    ensures (forall path :: Listed(entries, path) <==> MayRead(w, entries, path))
            <==> (forall e :: e in entries && Stray(e) ==> MayRead(w, entries, e.scope.path))
  {
    if forall path :: Listed(entries, path) <==> MayRead(w, entries, path) {
      forall e | e in entries && Stray(e) ensures MayRead(w, entries, e.scope.path) {
        ListedIs(w, entries, e.scope.path);
      }
    }
    if forall e :: e in entries && Stray(e) ==> MayRead(w, entries, e.scope.path) {
      forall path ensures Listed(entries, path) <==> MayRead(w, entries, path) {
        ListedIs(w, entries, path);
        if e :| e in entries && Stray(e) && Under(path, e.scope.path) {
          ReadableBelow(w, entries, e.scope.path, path);
        }
      }
    }
  }

  /** _validate_grant_scope, the gate of the grant and mapping forms, as far as it asks
      which role may stand on which kind of scope. */
  predicate FormAccepts(role: Role, scope: Scope) {
    if role.OtherRole? then false
    else if scope.FleetScope? then true
    else if FleetOnly(role) then false
    else if scope.PrefixScope? then role.FileReader? || role.FileEditor?
    else if role.FileReader? || role.FileEditor? then false
    else !scope.OtherScope?
  }

  /** Any built-in role on the fleet; off it no fleet-only role, on a path the file roles
      alone, and those on nothing else. */
  lemma FormsMean(role: Role, scope: Scope)
    ensures FormAccepts(role, scope) <==>
              && !role.OtherRole? && !scope.OtherScope?
              && (scope == FleetScope
                  || (role !in {Viewer, Operator, Admin, SecurityReader, Auditor, KeyCustodian}
                      && (scope.PrefixScope? <==> role in {FileReader, FileEditor})))
  {
  }

  /** Where every entry came through the forms, or is the fleet fallback, listing and
      reading agree on every path. */
  lemma FormedListingAgrees(w: World, entries: seq<Entry>, path: string)
    requires forall e :: e in entries ==> FormAccepts(e.role, e.scope)
    ensures Listed(entries, path) <==> MayRead(w, entries, path)
  {
    hide Listed, MayRead;
    ListedIs(w, entries, path);
  }

  /** What may be read may be read below. */
  lemma ReadableBelow(w: World, entries: seq<Entry>, root: string, path: string)
    requires MayRead(w, entries, root) && Under(path, root)
    ensures MayRead(w, entries, path)
  {
    var e :| e in entries && EntryCovers(w, e, FileRead, None, Some(root));
    if e.scope.PrefixScope? { UnderTransitive(path, root, e.scope.path); }
    assert EntryCovers(w, e, FileRead, None, Some(path));
  }

  /** A case where they differ: a viewer grant on a path lists it unreadable. */
  lemma StrayGrantIsListed(w: World)
    ensures var entries := [Entry(Viewer, PrefixScope("states"))];
            Listed(entries, "states") && !MayRead(w, entries, "states")
  {
    var e := Entry(Viewer, PrefixScope("states"));
    assert e in [e] && Stray(e) && Under("states", e.scope.path);
    ListedIs(w, [e], "states");
  }
}
