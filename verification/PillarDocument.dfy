/** A loaded pillar collection: nested mappings changed in place, with the values they
    stand for kept beside them. */
module PillarDocument {
  import opened Options
  import opened Sequences
  import opened Text
  import opened PillarTree

  const VERIFY_KEY := "_overstate_verify"

  // ------------------------------------------------------- edits at the end of a path

  /** d with the mapping at the path replaced. */
  function Graft(d: Dict, names: Path, sub: Dict): Dict
    decreases names
  {
    if names == [] then sub
    else
      var inner := if names[0] in d && d[names[0]].Node? then d[names[0]].kids else map[];
      d[names[0] := Node(Graft(inner, names[1..], sub))]
  }

  /** d with the mappings on the path pruned, deepest first, while they are empty. */
  function Pruned(d: Dict, names: Path): Dict
    decreases names
  {
    if names == [] || names[0] !in d || !d[names[0]].Node? then d
    else
      var inner := Pruned(d[names[0]].kids, names[1..]);
      if inner == map[] then d - {names[0]} else d[names[0] := Node(inner)]
  }

  predicate Reaches(d: Dict, names: Path, sub: Dict) {
    Get(Node(d), names) == Some(Node(sub))
  }

  lemma ReachesDown(d: Dict, names: Path, sub: Dict)
    requires names != [] && Reaches(d, names, sub)
    ensures names[0] in d && d[names[0]].Node? && Reaches(d[names[0]].kids, names[1..], sub)
  {
    assert Get(d[names[0]], names[1..]) == Some(Node(sub));
    if names[1..] == [] { GetRoot(d[names[0]]); }
  }

  lemma {:induction false} GraftReaches(d: Dict, names: Path, sub: Dict)
    ensures Reaches(Graft(d, names, sub), names, sub)
    decreases names
  {
    if names != [] {
      GraftReaches(if names[0] in d && d[names[0]].Node? then d[names[0]].kids else map[], names[1..], sub);
    }
  }

  lemma {:induction false} GraftTwice(d: Dict, names: Path, first: Dict, second: Dict)
    ensures Graft(Graft(d, names, first), names, second) == Graft(d, names, second)
    decreases names
  {
    if names != [] {
      GraftTwice(if names[0] in d && d[names[0]].Node? then d[names[0]].kids else map[], names[1..], first, second);
    }
  }

  lemma {:induction false} ReachesNext(d: Dict, names: Path, sub: Dict, name: Name, next: Dict)
    requires Reaches(d, names, sub) && name in sub && sub[name] == Node(next)
    ensures Reaches(d, names + [name], next)
    decreases names
  {
    if names == [] {
      assert ([] + [name])[1..] == [];
      GetRoot(Node(next));
    } else {
      SnocTail(names, name);
      ReachesDown(d, names, sub);
      ReachesNext(d[names[0]].kids, names[1..], sub, name, next);
    }
  }

  /** Setting through a mapping that is reached is setting in it. */
  lemma {:induction false} PutThrough(d: Dict, p: Path, i: nat, sub: Dict, v: Tree)
    requires i < |p| && Reaches(d, p[..i], sub)
    ensures Put(d, p, v) == match Put(sub, p[i..], v)
                            case NotAMapping(name) => NotAMapping(name)
                            case Ok(after) => Ok(Graft(d, p[..i], after))
    decreases i
  {
    if i == 0 {
      assert p[0..] == p;
    } else {
      Tails(p, i);
      ReachesDown(d, p[..i], sub);
      PutThrough(d[p[0]].kids, p[1..], i - 1, sub, v);
    }
  }

  /** So is deleting, save that mappings left empty are pruned. */
  lemma {:induction false} CutThrough(d: Dict, names: Path, name: Name, sub: Dict)
    requires Reaches(d, names, sub)
    ensures Cut(d, names + [name])
         == if name in sub then (Pruned(Graft(d, names, sub - {name}), names), true) else (d, false)
    decreases names
  {
    if names == [] {
      assert [] + [name] == [name];
    } else {
      SnocTail(names, name);
      ReachesDown(d, names, sub);
      var kids := d[names[0]].kids;
      CutThrough(kids, names[1..], name, sub);
      var inner := Graft(kids, names[1..], sub - {name});
      var g := Graft(d, names, sub - {name});
      assert g == d[names[0] := Node(inner)];
      assert g - {names[0]} == d - {names[0]};
      assert g[names[0] := Node(Pruned(inner, names[1..]))] == d[names[0] := Node(Pruned(inner, names[1..]))];
    }
  }

  lemma Tails(p: Path, i: nat)
    requires 0 < i < |p|
    ensures p[..i] != [] && p[..i][0] == p[0] && p[..i][1..] == p[1..][..i - 1] && p[1..][i - 1..] == p[i..]
  {
  }

  /** A step of the descent that stops: something else than a mapping is there. */
  lemma DeadEnd(d: Dict, p: Path, i: nat, sub: Dict, v: Tree)
    requires i + 1 < |p| && Reaches(d, p[..i], sub)
    ensures p[i] in sub && sub[p[i]].Scalar? ==> Put(d, p, v) == NotAMapping(p[i])
  {
    PutThrough(d, p, i, sub, v);
  }

  /** Opening an empty mapping where none is changes no later set. */
  lemma OpeningIsSilent(d: Dict, p: Path, i: nat, sub: Dict, v: Tree)
    requires i + 1 < |p| && Reaches(d, p[..i], sub)
    requires p[i] !in sub || sub[p[i]].Null?
    ensures Put(Graft(d, p[..i], sub[p[i] := Node(map[])]), p, v) == Put(d, p, v)
  {
    var opened' := sub[p[i] := Node(map[])];
    var d' := Graft(d, p[..i], opened');
    GraftReaches(d, p[..i], opened');
    PutThrough(d, p, i, sub, v);
    PutThrough(d', p, i, opened', v);
    var after := Put(sub, p[i..], v);
    if after.Ok? {
      assert opened'[p[i] := after.value[p[i]]] == sub[p[i] := after.value[p[i]]];
      GraftTwice(d, p[..i], opened', after.value);
    }
  }

  lemma {:induction false} DeadEndCut(d: Dict, p: Path, i: nat, sub: Dict)
    requires i + 1 < |p| && Reaches(d, p[..i], sub)
    requires p[i] !in sub || !sub[p[i]].Node?
    ensures Cut(d, p) == (d, false)
    decreases i
  {
    if i > 0 {
      Tails(p, i);
      ReachesDown(d, p[..i], sub);
      DeadEndCut(d[p[0]].kids, p[1..], i - 1, sub);
    }
  }

  /** One step of pruning: an empty mapping goes, and its parent is next; a nonempty
      one ends it. */
  lemma {:induction false} PruneStep(d: Dict, names: Path, name: Name, sub: Dict, child: Dict)
    requires Reaches(d, names, sub) && name in sub && sub[name] == Node(child)
    ensures child == map[] ==> Pruned(d, names + [name]) == Pruned(Graft(d, names, sub - {name}), names)
    ensures child != map[] ==> Pruned(d, names + [name]) == d
    decreases names
  {
    if names == [] {
      assert ([] + [name])[0] == name && ([] + [name])[1..] == [];
      assert d[name := d[name]] == d;
    } else {
      SnocTail(names, name);
      ReachesDown(d, names, sub);
      PruneStep(d[names[0]].kids, names[1..], name, sub, child);
      var g := Graft(d, names, sub - {name});
      assert g - {names[0]} == d - {names[0]};
      assert d[names[0] := d[names[0]]] == d;
      if child != map[] {
        assert d[names[0]].kids != map[] by { NotEmptyAbove(d[names[0]].kids, names[1..], sub, name); }
      }
    }
  }

  lemma NotEmptyAbove(d: Dict, names: Path, sub: Dict, name: Name)
    requires Reaches(d, names, sub) && name in sub
    ensures d != map[]
  {
  }

  lemma {:induction false} GraftSnoc(d: Dict, names: Path, name: Name, sub: Dict, t: Dict)
    requires Reaches(d, names, sub) && name in sub && sub[name].Node?
    ensures Graft(d, names + [name], t) == Graft(d, names, sub[name := Node(t)])
    decreases names
  {
    if names == [] {
      assert ([] + [name])[0] == name && ([] + [name])[1..] == [];
    } else {
      SnocTail(names, name);
      ReachesDown(d, names, sub);
      GraftSnoc(d[names[0]].kids, names[1..], name, sub, t);
    }
  }

  // ---------------------------------------------------------------------- the objects

  /** A stored value: null, another value that is not a mapping, or a mapping. */
  datatype Entry = Nothing | Word(text: string) | Sub(mapping: Mapping)

  class Mapping {
    var entries: map<Name, Entry>

    constructor ()
      ensures entries == map[]
    {
      entries := map[];
    }
  }

  /** Where a flattening is collected. */
  class Leaves {
    var out: Dict

    constructor ()
      ensures out == map[]
    {
      out := map[];
    }
  }

  /** The entries of every mapping of a document at one moment. */
  type Cells = map<Mapping, map<Name, Entry>>

  ghost predicate Holds(cells: Cells, older m: Mapping, name: Name, older child: Mapping) {
    m in cells && name in cells[m] && cells[m][name] == Sub(child)
  }

  /** Every mapping below another is one of the document's, one level down, and held by
      one entry only. */
  ghost predicate Linked(cells: Cells, level: map<Mapping, nat>) {
    && level.Keys == cells.Keys
    && (forall m, k, c :: Holds(cells, m, k, c) ==> c in cells && level[c] == level[m] + 1)
    && (forall m, n, j, k, c :: Holds(cells, m, j, c) && Holds(cells, n, k, c) ==> m == n && j == k)
  }

  ghost predicate Unheld(cells: Cells, child: Mapping) {
    forall m, k :: !Holds(cells, m, k, child)
  }

  ghost predicate Known(e: Entry, trees: map<Mapping, Dict>) {
    e.Sub? ==> e.mapping in trees
  }

  ghost function Shape(e: Entry, trees: map<Mapping, Dict>): Tree
    requires Known(e, trees)
  {
    match e
    case Nothing => Null
    case Word(text) => Scalar(text)
    case Sub(m) => Node(trees[m])
  }

  /** The value t agrees with the entries. */
  ghost predicate FitsWith(entries: map<Name, Entry>, trees: map<Mapping, Dict>, t: Dict) {
    t.Keys == entries.Keys && forall k :: k in entries ==> Known(entries[k], trees) && t[k] == Shape(entries[k], trees)
  }

  ghost predicate Fits(cells: Cells, trees: map<Mapping, Dict>, m: Mapping)
    requires m in cells && m in trees
  {
    FitsWith(cells[m], trees, trees[m])
  }

  ghost predicate FitsBut(cells: Cells, trees: map<Mapping, Dict>, hole: Mapping) {
    cells.Keys == trees.Keys && forall m :: m in cells && m != hole ==> Fits(cells, trees, m)
  }

  ghost predicate FitsAll(cells: Cells, trees: map<Mapping, Dict>) {
    cells.Keys == trees.Keys && forall m :: m in cells ==> Fits(cells, trees, m)
  }

  /** spine is the chain of mappings from the top one along the names. */
  ghost predicate Chain(cells: Cells, spine: seq<Mapping>, names: Path) {
    && |spine| == |names| + 1
    && (forall j :: 0 <= j < |spine| ==> spine[j] in cells)
    && (forall j :: 0 <= j < |names| ==> Holds(cells, spine[j], names[j], spine[j + 1]))
  }

  lemma ChainFront(cells: Cells, spine: seq<Mapping>, names: Path)
    requires Chain(cells, spine, names) && names != []
    ensures Chain(cells, spine[..|names|], names[..|names| - 1])
  {
    var n := |names|;
    forall j | 0 <= j < n - 1 ensures Holds(cells, spine[..n][j], names[..n - 1][j], spine[..n][j + 1]) {
      assert Holds(cells, spine[j], names[j], spine[j + 1]);
    }
  }

  lemma {:induction false} ChainLevels(cells: Cells, level: map<Mapping, nat>, spine: seq<Mapping>, names: Path, j: nat)
    requires Linked(cells, level) && Chain(cells, spine, names) && j < |spine|
    ensures level[spine[j]] == level[spine[0]] + j
  {
    if j > 0 {
      ChainLevels(cells, level, spine, names, j - 1);
      assert Holds(cells, spine[j - 1], names[j - 1], spine[j]);
    }
  }

  /** The value at the end of a chain is the one its names lead to. */
  lemma {:induction false} ChainReaches(cells: Cells, trees: map<Mapping, Dict>, spine: seq<Mapping>, names: Path)
    requires Chain(cells, spine, names) && trees.Keys == cells.Keys
    requires forall j :: 0 <= j < |names| ==> Fits(cells, trees, spine[j])
    ensures Reaches(trees[spine[0]], names, trees[spine[|names|]])
  {
    var n := |names|;
    if n == 0 {
      GetRoot(Node(trees[spine[0]]));
    } else {
      assert Holds(cells, spine[n - 1], names[n - 1], spine[n]) && Fits(cells, trees, spine[n - 1]);
      ChainFront(cells, spine, names);
      ChainReaches(cells, trees, spine[..n], names[..n - 1]);
      Splits(names, n - 1, n);
      assert names[n - 1..n] == [names[n - 1]] && names[..n] == names;
      ReachesNext(trees[spine[0]], names[..n - 1], trees[spine[n - 1]], names[n - 1], trees[spine[n]]);
    }
  }

  /** The values after the last mapping of a chain took the value t: each mapping on
      the chain follows the one below it. */
  ghost function Settled(trees: map<Mapping, Dict>, spine: seq<Mapping>, names: Path, t: Dict): map<Mapping, Dict>
    requires |spine| == |names| + 1 && forall j :: 0 <= j < |spine| ==> spine[j] in trees
    decreases names
  {
    var n := |names|;
    if n == 0 then trees[spine[0] := t]
    else Settled(trees[spine[n] := t], spine[..n], names[..n - 1], trees[spine[n - 1]][names[n - 1] := Node(t)])
  }

  lemma Unmoved(entries: map<Name, Entry>, trees: map<Mapping, Dict>, u: Dict, m: Mapping, t: Dict)
    requires FitsWith(entries, trees, u) && forall k :: k in entries ==> entries[k] != Sub(m)
    ensures FitsWith(entries, trees[m := t], u)
  {
  }

  lemma ParentFollows(entries: map<Name, Entry>, trees: map<Mapping, Dict>, u: Dict, m: Mapping, t: Dict, name: Name)
    requires FitsWith(entries, trees, u) && name in entries && entries[name] == Sub(m)
    requires forall k :: k in entries && k != name ==> entries[k] != Sub(m)
    ensures FitsWith(entries, trees[m := t], u[name := Node(t)])
  {
  }

  lemma OneHolder(cells: Cells, level: map<Mapping, nat>, m: Mapping, parent: Mapping, name: Name)
    requires Linked(cells, level) && Holds(cells, parent, name, m)
    ensures forall n, k :: Holds(cells, n, k, m) ==> n == parent && k == name
  {
  }

  /** A new value for one mapping disturbs its parent only. */
  lemma NewValue(cells: Cells, level: map<Mapping, nat>, trees: map<Mapping, Dict>, m: Mapping, t: Dict,
                 parent: Mapping, name: Name)
    requires Linked(cells, level) && m in cells && Holds(cells, parent, name, m)
    requires FitsBut(cells, trees, m) && FitsWith(cells[m], trees, t)
    ensures FitsBut(cells, trees[m := t], parent)
    ensures FitsWith(cells[parent], trees[m := t], trees[parent][name := Node(t)])
  {
    assert parent != m;
    assert Fits(cells, trees, parent);
    OneHolder(cells, level, m, parent, name);
    forall k | k in cells[parent] && k != name
      ensures cells[parent][k] != Sub(m)
    {
      assert !Holds(cells, parent, k, m);
    }
    ParentFollows(cells[parent], trees, trees[parent], m, t, name);
    hide FitsWith;
    forall n | n in cells && n != parent ensures Fits(cells, trees[m := t], n) {
      assert n != m ==> Fits(cells, trees, n);
      forall k | k in cells[n] ensures cells[n][k] != Sub(m) { assert !Holds(cells, n, k, m); }
      Unmoved(cells[n], trees, if n == m then t else trees[n], m, t);
    }
  }

  lemma SpineLevels(cells: Cells, level: map<Mapping, nat>, spine: seq<Mapping>, names: Path)
    requires Linked(cells, level) && Chain(cells, spine, names)
    ensures forall i, j :: 0 <= i < j < |spine| ==> spine[i] != spine[j]
  {
    forall i, j | 0 <= i < j < |spine| ensures spine[i] != spine[j] {
      ChainLevels(cells, level, spine, names, i);
      ChainLevels(cells, level, spine, names, j);
    }
  }

  lemma {:induction false} SettledFits(cells: Cells, level: map<Mapping, nat>, trees: map<Mapping, Dict>,
                                       spine: seq<Mapping>, names: Path, t: Dict)
    requires Linked(cells, level) && Chain(cells, spine, names)
    requires level[spine[0]] == 0
    requires FitsBut(cells, trees, spine[|names|]) && FitsWith(cells[spine[|names|]], trees, t)
    ensures var after := Settled(trees, spine, names, t);
            && FitsAll(cells, after)
            && after[spine[|names|]] == t
            && after[spine[0]] == Graft(trees[spine[0]], names, t)
    decreases names
  {
    hide Linked, FitsWith, Fits;
    var n := |names|;
    SpineLevels(cells, level, spine, names);
    if n == 0 {
      AllFit(cells, level, trees, spine[0], t);
    } else {
      var parent, name := spine[n - 1], names[n - 1];
      assert Holds(cells, parent, name, spine[n]);
      NewValue(cells, level, trees, spine[n], t, parent, name);
      ChainFront(cells, spine, names);
      var trees' := trees[spine[n] := t];
      SettledFits(cells, level, trees', spine[..n], names[..n - 1], trees[parent][name := Node(t)]);
      SettledKeeps(trees', spine[..n], names[..n - 1], trees[parent][name := Node(t)], spine[n]);
      ChainReaches(cells, trees, spine[..n], names[..n - 1]);
      Splits(names, n - 1, n);
      assert names[n - 1..n] == [name] && names[..n] == names;
      HeldFits(cells, trees, parent, name, spine[n]);
      GraftSnoc(trees[spine[0]], names[..n - 1], name, trees[parent], t);
    }
  }

  lemma HeldFits(cells: Cells, trees: map<Mapping, Dict>, m: Mapping, name: Name, child: Mapping)
    requires Holds(cells, m, name, child) && m in trees && Fits(cells, trees, m)
    ensures child in trees && name in trees[m] && trees[m][name] == Node(trees[child])
  {
  }

  lemma AllFit(cells: Cells, level: map<Mapping, nat>, trees: map<Mapping, Dict>, m: Mapping, t: Dict)
    requires Linked(cells, level) && m in cells && FitsBut(cells, trees, m) && FitsWith(cells[m], trees, t)
    requires level[m] == 0
    ensures FitsAll(cells, trees[m := t])
  {
    hide FitsWith;
    forall n | n in cells ensures Fits(cells, trees[m := t], n) {
      assert n != m ==> Fits(cells, trees, n);
      forall k | k in cells[n] ensures cells[n][k] != Sub(m) { assert !Holds(cells, n, k, m); }
      Unmoved(cells[n], trees, if n == m then t else trees[n], m, t);
    }
  }

  lemma {:induction false} SettledKeeps(trees: map<Mapping, Dict>, spine: seq<Mapping>, names: Path, t: Dict,
                                        m: Mapping)
    requires |spine| == |names| + 1 && forall j :: 0 <= j < |spine| ==> spine[j] in trees
    requires m in trees && m !in spine
    ensures Settled(trees, spine, names, t).Keys == trees.Keys && Settled(trees, spine, names, t)[m] == trees[m]
    decreases names
  {
    var n := |names|;
    if n > 0 {
      assert spine == spine[..n] + [spine[n]];
      SettledKeeps(trees[spine[n] := t], spine[..n], names[..n - 1], trees[spine[n - 1]][names[n - 1] := Node(t)], m);
    }
  }

  // ----------------------------------------------------- what one assignment disturbs

  lemma ChainKept(cells: Cells, level: map<Mapping, nat>, spine: seq<Mapping>, names: Path, entries: map<Name, Entry>)
    requires Linked(cells, level) && Chain(cells, spine, names)
    ensures Chain(cells[spine[|names|] := entries], spine, names)
  {
    SpineLevels(cells, level, spine, names);
    var cells' := cells[spine[|names|] := entries];
    forall j | 0 <= j < |names| ensures Holds(cells', spine[j], names[j], spine[j + 1]) {
      assert Holds(cells, spine[j], names[j], spine[j + 1]);
    }
  }

  lemma HeldAfter(cells: Cells, node: Mapping, entries: map<Name, Entry>, m: Mapping, k: Name, c: Mapping)
    ensures Holds(cells[node := entries], m, k, c) <==>
              if m == node then k in entries && entries[k] == Sub(c) else Holds(cells, m, k, c)
  {
  }

  /** Entries that hold no mapping that was not held there before keep the links. */
  lemma StillLinked(cells: Cells, level: map<Mapping, nat>, node: Mapping, entries: map<Name, Entry>)
    requires Linked(cells, level) && node in cells
    requires forall k :: k in entries && entries[k].Sub? ==> k in cells[node] && cells[node][k] == entries[k]
    ensures Linked(cells[node := entries], level)
  {
    var cells' := cells[node := entries];
    forall m, k, c | Holds(cells', m, k, c) ensures Holds(cells, m, k, c) {}
  }

  /** node[name] = a value that is not a mapping */
  lemma StoredWord(cells: Cells, level: map<Mapping, nat>, trees: map<Mapping, Dict>, node: Mapping,
                   name: Name, text: string)
    requires Linked(cells, level) && FitsAll(cells, trees) && node in cells
    ensures var entries := cells[node][name := Word(text)];
            && Linked(cells[node := entries], level)
            && FitsBut(cells[node := entries], trees, node)
            && FitsWith(entries, trees, trees[node][name := Scalar(text)])
  {
    var entries := cells[node][name := Word(text)];
    OtherFits(cells, trees, node, entries);
    StillLinked(cells, level, node, entries);
    assert Fits(cells, trees, node);
  }

  /** del node[name] */
  lemma DroppedEntry(cells: Cells, level: map<Mapping, nat>, trees: map<Mapping, Dict>, node: Mapping, name: Name)
    requires Linked(cells, level) && FitsAll(cells, trees) && node in cells
    ensures var entries := cells[node] - {name};
            && Linked(cells[node := entries], level)
            && FitsBut(cells[node := entries], trees, node)
            && FitsWith(entries, trees, trees[node] - {name})
  {
    var entries := cells[node] - {name};
    OtherFits(cells, trees, node, entries);
    StillLinked(cells, level, node, entries);
    assert Fits(cells, trees, node);
  }

  lemma OtherFits(cells: Cells, trees: map<Mapping, Dict>, node: Mapping, entries: map<Name, Entry>)
    requires FitsAll(cells, trees) && node in cells
    ensures FitsBut(cells[node := entries], trees, node)
  {
    hide FitsWith;
    forall m | m in cells && m != node ensures Fits(cells[node := entries], trees, m) { assert Fits(cells, trees, m); }
  }

  /** A mapping nobody holds yet. */
  lemma NewMapping(cells: Cells, level: map<Mapping, nat>, trees: map<Mapping, Dict>, child: Mapping, depth: nat)
    requires Linked(cells, level) && FitsAll(cells, trees) && child !in cells
    ensures Linked(cells[child := map[]], level[child := depth])
    ensures FitsAll(cells[child := map[]], trees[child := map[]])
    ensures Unheld(cells[child := map[]], child)
  {
    ChildLinked(cells, level, child, depth);
    hide FitsWith, Linked, Unheld, Holds;
    forall m | m in cells ensures Fits(cells[child := map[]], trees[child := map[]], m) {
      assert Fits(cells, trees, m);
      UnheldThere(cells, m, child);
      Unmoved(cells[m], trees, trees[m], child, map[]);
    }
    NothingFits(trees[child := map[]]);
  }

  lemma UnheldThere(cells: Cells, m: Mapping, child: Mapping)
    requires Unheld(cells, child) && m in cells
    ensures forall k :: k in cells[m] ==> cells[m][k] != Sub(child)
  {
    forall k | k in cells[m] ensures cells[m][k] != Sub(child) { assert !Holds(cells, m, k, child); }
  }

  lemma ChildLinked(cells: Cells, level: map<Mapping, nat>, child: Mapping, depth: nat)
    requires Linked(cells, level) && child !in cells
    ensures Linked(cells[child := map[]], level[child := depth])
    ensures Unheld(cells, child) && Unheld(cells[child := map[]], child)
  {
    var cells' := cells[child := map[]];
    forall m, k, c ensures Holds(cells', m, k, c) <==> Holds(cells, m, k, c) {
      HeldAfter(cells, child, map[], m, k, c);
    }
  }

  lemma NothingFits(trees: map<Mapping, Dict>)
    ensures FitsWith(map[], trees, map[])
  {
  }

  /** node[name] = child, for a mapping nobody holds. */
  lemma StoredMapping(cells: Cells, level: map<Mapping, nat>, trees: map<Mapping, Dict>, node: Mapping,
                      name: Name, child: Mapping)
    requires Linked(cells, level) && FitsAll(cells, trees) && node in cells && child in cells
    requires level[child] == level[node] + 1
    requires Unheld(cells, child)
    ensures var entries := cells[node][name := Sub(child)];
            && Linked(cells[node := entries], level)
            && FitsBut(cells[node := entries], trees, node)
            && FitsWith(entries, trees, trees[node][name := Node(trees[child])])
  {
    var entries := cells[node][name := Sub(child)];
    OtherFits(cells, trees, node, entries);
    assert Fits(cells, trees, node);
    ChildStored(cells, level, node, name, child);
  }

  lemma ChildStored(cells: Cells, level: map<Mapping, nat>, node: Mapping, name: Name, child: Mapping)
    requires Linked(cells, level) && node in cells && child in cells && level[child] == level[node] + 1
    requires Unheld(cells, child)
    ensures Linked(cells[node := cells[node][name := Sub(child)]], level)
  {
    var cells' := cells[node := cells[node][name := Sub(child)]];
    forall m, k, c ensures Holds(cells', m, k, c) ==> Holds(cells, m, k, c) || (m == node && k == name && c == child) {
      HeldAfter(cells, node, cells[node][name := Sub(child)], m, k, c);
    }
  }

  lemma ChainGrows(cells: Cells, spine: seq<Mapping>, names: Path, child: Mapping)
    requires Chain(cells, spine, names) && child !in cells
    ensures Chain(cells[child := map[]], spine, names)
  {
    var cells' := cells[child := map[]];
    forall j | 0 <= j < |names| ensures Holds(cells', spine[j], names[j], spine[j + 1]) {
      assert Holds(cells, spine[j], names[j], spine[j + 1]);
    }
  }

  lemma EntryIs(entries: map<Name, Entry>, trees: map<Mapping, Dict>, t: Dict, name: Name)
    requires FitsWith(entries, trees, t)
    ensures name in entries <==> name in t
    ensures name in t ==> (t[name].Null? <==> entries[name].Nothing?) && (t[name].Scalar? <==> entries[name].Word?)
    ensures name in t && entries[name].Sub? ==>
            entries[name].mapping in trees && t[name] == Node(trees[entries[name].mapping])
    ensures entries == map[] <==> t == map[]
  {
    if t == map[] { assert entries.Keys == {}; }
    if entries == map[] { assert t.Keys == {}; }
  }

  lemma PutLast(d: Dict, p: Path, v: Tree)
    requires |p| == 1
    ensures Put(d, p, v) == Ok(d[p[0] := v])
  {
  }

  class Document {
    const data: Mapping
    ghost var trees: map<Mapping, Dict>
    ghost var level: map<Mapping, nat>

    ghost function Cells(): Cells
      reads this, trees.Keys
    {
      map m | m in trees :: m.entries
    }

    ghost predicate Sound()
      reads this, trees.Keys
    {
      data in trees && Linked(Cells(), level) && level[data] == 0
    }

    ghost predicate Valid()
      reads this, trees.Keys
    {
      Sound() && FitsAll(Cells(), trees)
    }

    /** The value the document stands for. */
    ghost function Contents(): Dict
      reads this
    {
      if data in trees then trees[data] else map[]
    }

    /** node is where the names lead, along the spine. */
    ghost predicate At(node: Mapping, spine: seq<Mapping>, names: Path)
      reads this, trees.Keys
    {
      Chain(Cells(), spine, names) && spine[0] == data && spine[|names|] == node
    }

    constructor ()
      ensures Valid() && fresh(trees.Keys) && Contents() == map[]
    {
      data := new Mapping();
      new;
      trees, level := map[data := map[]], map[data := 0];
      assert Cells() == map[data := map[]];
    }

    /** After the entries of node changed, the values along its spine follow. */
    ghost method Refresh(node: Mapping, spine: seq<Mapping>, names: Path, t: Dict)
      requires Sound() && At(node, spine, names)
      requires FitsBut(Cells(), trees, node) && FitsWith(node.entries, trees, t)
      modifies this`trees
      ensures Valid() && At(node, spine, names) && trees.Keys == old(trees.Keys) && trees[node] == t
      ensures Contents() == Graft(old(Contents()), names, t)
    {
      hide Linked, FitsWith, Fits, Graft;
      SettledFits(Cells(), level, trees, spine, names, t);
      ghost var was := Cells();
      trees := Settled(trees, spine, names, t);
      assert Cells() == was;
    }

    /** The entries of node change, and the values follow. */
    method Assign(node: Mapping, entries: map<Name, Entry>, ghost t: Dict, ghost spine: seq<Mapping>, ghost names: Path)
      requires Valid() && At(node, spine, names)
      requires Linked(Cells()[node := entries], level)
      requires FitsBut(Cells()[node := entries], trees, node) && FitsWith(entries, trees, t)
      modifies this`trees, node
      ensures Valid() && At(node, spine, names) && trees.Keys == old(trees.Keys) && trees[node] == t
      ensures node.entries == entries && Contents() == Graft(old(Contents()), names, t)
    {
      InCells(node, spine, names);
      hide Linked, FitsAll, FitsBut, FitsWith, Fits, Graft, Chain;
      ghost var cells := Cells();
      ChainKept(cells, level, spine, names, entries);
      node.entries := entries;
      assert Cells() == cells[node := entries];
      Refresh(node, spine, names, t);
    }

    lemma InCells(node: Mapping, spine: seq<Mapping>, names: Path)
      requires Valid() && At(node, spine, names)
      ensures node in trees && node in level && node in Cells()
    {
    }

    /** node[name] = text */
    method Store(node: Mapping, name: Name, text: string, ghost spine: seq<Mapping>, ghost names: Path)
      requires Valid() && At(node, spine, names)
      modifies this`trees, node
      ensures Valid() && trees.Keys == old(trees.Keys)
      ensures Contents() == Graft(old(Contents()), names, old(trees[node])[name := Scalar(text)])
    {
      InCells(node, spine, names);
      hide Linked, FitsAll, FitsBut, FitsWith, Fits, Graft, Chain;
      StoredWord(Cells(), level, trees, node, name, text);
      Assign(node, node.entries[name := Word(text)], trees[node][name := Scalar(text)], spine, names);
    }

    /** child = {} */
    method NewChild(ghost depth: nat) returns (child: Mapping)
      requires Valid()
      modifies this`trees, this`level
      ensures Valid() && fresh(child) && child.entries == map[]
      ensures trees == old(trees)[child := map[]] && level == old(level)[child := depth]
      ensures Cells() == old(Cells())[child := map[]] && Unheld(Cells(), child)
    {
      hide Linked, FitsAll, Unheld;
      child := new Mapping();
      ghost var cells := Cells();
      NewMapping(cells, level, trees, child, depth);
      trees, level := trees[child := map[]], level[child := depth];
      assert Cells() == cells[child := map[]];
    }

    /** child = {}; node[name] = child */
    method Open(node: Mapping, name: Name, ghost spine: seq<Mapping>, ghost names: Path) returns (child: Mapping)
      requires Valid() && At(node, spine, names)
      modifies this`trees, this`level, node
      ensures Valid() && At(node, spine, names) && fresh(child) && trees.Keys == old(trees.Keys) + {child}
      ensures Contents() == Graft(old(Contents()), names, old(trees[node])[name := Node(map[])])
      ensures node.entries == old(node.entries)[name := Sub(child)] && child.entries == map[]
    {
      InCells(node, spine, names);
      hide Linked, FitsAll, FitsBut, FitsWith, Fits, Graft, Chain, Unheld;
      ghost var cells := Cells();
      child := NewChild(level[node] + 1);
      ChainGrows(cells, spine, names, child);
      StoredMapping(Cells(), level, trees, node, name, child);
      Assign(node, node.entries[name := Sub(child)], trees[node][name := Node(map[])], spine, names);
    }

    /** del node[name] */
    method Drop(node: Mapping, name: Name, ghost spine: seq<Mapping>, ghost names: Path)
      requires Valid() && At(node, spine, names)
      modifies this`trees, node
      ensures Valid() && At(node, spine, names) && trees.Keys == old(trees.Keys)
      ensures Contents() == Graft(old(Contents()), names, old(trees[node]) - {name})
      ensures trees[node] == old(trees[node]) - {name} && node.entries == old(node.entries) - {name}
    {
      InCells(node, spine, names);
      hide Linked, FitsAll, FitsBut, FitsWith, Fits, Graft, Chain;
      DroppedEntry(Cells(), level, trees, node, name);
      Assign(node, node.entries - {name}, trees[node] - {name}, spine, names);
    }

    /** What a mapping's entries are to the values. */
    lemma EntriesAre(node: Mapping, spine: seq<Mapping>, names: Path)
      requires Valid() && At(node, spine, names)
      ensures node in trees && FitsWith(node.entries, trees, trees[node])
      ensures Reaches(Contents(), names, trees[node])
    {
      assert Fits(Cells(), trees, node);
      forall j | 0 <= j < |names| ensures Fits(Cells(), trees, spine[j]) {}
      ChainReaches(Cells(), trees, spine, names);
    }

    lemma AtChild(node: Mapping, spine: seq<Mapping>, names: Path, name: Name, child: Mapping)
      requires Valid() && At(node, spine, names) && name in node.entries && node.entries[name] == Sub(child)
      ensures At(child, spine + [child], names + [name]) && child in trees
    {
      EntriesAre(node, spine, names);
      var spine', names' := spine + [child], names + [name];
      assert spine'[|names|] == node;
      forall j | 0 <= j < |names'| ensures Holds(Cells(), spine'[j], names'[j], spine'[j + 1]) {
        if j < |names| { assert Holds(Cells(), spine[j], names[j], spine[j + 1]); }
      }
    }

    /** _set_path: a value that is neither a mapping nor null in the way stops it with
        nothing changed. */
    method SetPath(dotted: string, value: string) returns (r: Result<()>)
      requires Valid()
      modifies this, trees.Keys
      ensures Valid() && fresh(trees.Keys - old(trees.Keys))
      ensures match Put(old(Contents()), Split(dotted, '.'), Scalar(value))
              case Ok(d) => r == Ok(()) && Contents() == d
              case NotAMapping(name) => r == NotAMapping(name) && Contents() == old(Contents())
    {
      hide Linked, FitsAll, FitsBut, FitsWith, Fits, Graft, Chain, Put, Reaches, Sound;
      var parts := Split(dotted, '.');
      ghost var d, v := Contents(), Scalar(value);
      var node, i := data, 0;
      ghost var spine := [data];
      AtTop();
      assert parts[..0] == [];
      while i < |parts| - 1
        invariant 0 <= i < |parts| && Valid() && At(node, spine, parts[..i])
        invariant fresh(trees.Keys - old(trees.Keys))
        invariant Put(Contents(), parts, v) == Put(d, parts, v)
        invariant Contents() == d || node.entries == map[]
      {
        var part := parts[i];
        EntriesAre(node, spine, parts[..i]);
        ghost var sub := trees[node];
        EntryIs(node.entries, trees, sub, part);
        assert parts[..i + 1] == parts[..i] + [part];
        if part !in node.entries || node.entries[part].Nothing? {
          OpeningIsSilent(Contents(), parts, i, sub, v);
          var child := Open(node, part, spine, parts[..i]);
          AtChild(node, spine, parts[..i], part, child);
          node, spine := child, spine + [child];
        } else if node.entries[part].Word? {
          DeadEnd(Contents(), parts, i, sub, v);
          return NotAMapping(part);
        } else {
          var child := node.entries[part].mapping;
          AtChild(node, spine, parts[..i], part, child);
          node, spine := child, spine + [child];
        }
        i := i + 1;
      }
      EntriesAre(node, spine, parts[..i]);
      PutThrough(Contents(), parts, i, trees[node], v);
      PutLast(trees[node], parts[i..], v);
      Store(node, parts[i], value, spine, parts[..i]);
      r := Ok(());
    }

    lemma AtTop()
      requires Valid()
      ensures At(data, [data], []) && data in trees
    {
    }

    lemma AtParent(spine: seq<Mapping>, names: Path, n: nat)
      requires Valid() && n < |names| && |spine| == |names| + 1
      requires At(spine[n + 1], spine[..n + 2], names[..n + 1])
      ensures At(spine[n], spine[..n + 1], names[..n])
      ensures names[n] in spine[n].entries && spine[n].entries[names[n]] == Sub(spine[n + 1])
    {
      ChainFront(Cells(), spine[..n + 2], names[..n + 1]);
      assert spine[..n + 2][..n + 1] == spine[..n + 1] && names[..n + 1][..n] == names[..n];
      assert Holds(Cells(), spine[..n + 2][n], names[..n + 1][n], spine[..n + 2][n + 1]);
    }

    /** _del_path: delete the key if it is there, then every parent left empty. */
    method DelPath(dotted: string) returns (found: bool)
      requires Valid()
      modifies this`trees, trees.Keys
      ensures Valid() && trees.Keys == old(trees.Keys)
      ensures (Contents(), found) == Cut(old(Contents()), Split(dotted, '.'))
    {
      hide Linked, FitsAll, FitsBut, FitsWith, Fits, Graft, Chain, Cut, Pruned, Reaches, Sound;
      var parts := Split(dotted, '.');
      ghost var d := Contents();
      var n := |parts| - 1;
      var node, i, stack: seq<(Mapping, Name)> := data, 0, [];
      ghost var spine := [data];
      AtTop();
      assert parts[..0] == [];
      while i < n
        invariant 0 <= i <= n && |spine| == i + 1 && Valid() && At(node, spine, parts[..i])
        invariant trees == old(trees) && Contents() == d
        invariant |stack| == i && forall j :: 0 <= j < i ==> stack[j] == (spine[j], parts[j])
      {
        var part := parts[i];
        EntriesAre(node, spine, parts[..i]);
        EntryIs(node.entries, trees, trees[node], part);
        if part !in node.entries || !node.entries[part].Sub? {
          DeadEndCut(d, parts, i, trees[node]);
          return false;
        }
        var child := node.entries[part].mapping;
        AtChild(node, spine, parts[..i], part, child);
        assert parts[..i + 1] == parts[..i] + [part];
        stack, node, spine, i := stack + [(node, part)], child, spine + [child], i + 1;
      }
      EntriesAre(node, spine, parts[..n]);
      EntryIs(node.entries, trees, trees[node], parts[n]);
      CutThrough(d, parts[..n], parts[n], trees[node]);
      assert parts[..n] + [parts[n]] == parts;
      if parts[n] !in node.entries { return false; }
      Drop(node, parts[n], spine, parts[..n]);
      assert spine[..n + 1] == spine;
      Prune(parts[..n], stack, spine);
      found := true;
    }

    /** The second loop of _del_path. */
    method Prune(ghost names: Path, stack: seq<(Mapping, Name)>, ghost spine: seq<Mapping>)
      requires Valid() && |spine| == |names| + 1 && At(spine[|names|], spine, names)
      requires |stack| == |names| && forall j :: 0 <= j < |names| ==> stack[j] == (spine[j], names[j])
      modifies this`trees, trees.Keys
      ensures Valid() && trees.Keys == old(trees.Keys)
      ensures Contents() == Pruned(old(Contents()), names)
    {
      hide Linked, FitsAll, FitsBut, FitsWith, Fits, Graft, Chain, Reaches, Sound, Pruned;
      var j := |stack|;
      ghost var goal := Pruned(Contents(), names);
      assert names[..j] == names && spine[..j + 1] == spine;
      while j > 0
        invariant 0 <= j <= |names| && Valid() && trees.Keys == old(trees.Keys)
        invariant At(spine[j], spine[..j + 1], names[..j])
        invariant Pruned(Contents(), names[..j]) == goal
      {
        j := j - 1;
        var (parent, key) := stack[j];
        AtParent(spine, names, j);
        var child := parent.entries[key];
        EntriesAre(parent, spine[..j + 1], names[..j]);
        EntryIs(parent.entries, trees, trees[parent], key);
        EntriesAre(spine[j + 1], spine[..j + 2], names[..j + 1]);
        EntryIs(spine[j + 1].entries, trees, trees[spine[j + 1]], key);
        PruneStep(Contents(), names[..j], key, trees[parent], trees[spine[j + 1]]);
        assert names[..j + 1] == names[..j] + [key];
        if child.mapping.entries != map[] { return; }
        Drop(parent, key, spine[..j + 1], names[..j]);
      }
      PrunedTop(Contents());
      assert names[..0] == [];
    }

    /** _flatten below the prefix q: a leaf is written under its stripped prefix, a
        mapping entry by entry. */
    method Flatten(prefix: string, e: Entry, out: Leaves, ghost q: Path)
      requires Valid() && Known(e, trees) && prefix == Prefix(q)
      modifies out
      ensures Added(old(out.out), out.out, q, Shape(e, trees))
      decreases Shape(e, trees)
    {
      hide Linked, Added, Prefix;
      match e {
        case Nothing =>
          LeafAdded(out.out, q, Null);
          out.out := out.out[StripDots(prefix) := Null];
        case Word(text) =>
          LeafAdded(out.out, q, Scalar(text));
          out.out := out.out[StripDots(prefix) := Scalar(text)];
        case Sub(m) =>
          ghost var t := trees[m];
          assert Fits(Cells(), trees, m);
          var todo := m.entries.Keys;
          NothingAdded(out.out, q);
          assert Part(t, {}) == map[];
          while todo != {}
            invariant todo <= m.entries.Keys
            invariant Added(old(out.out), out.out, q, Node(Part(t, m.entries.Keys - todo)))
          {
            var k :| k in todo;
            PrefixSnoc(q, k);
            ghost var before := out.out;
            ghost var done := m.entries.Keys - todo;
            Flatten(prefix + k + ".", m.entries[k], out, q + [k]);
            EntryAdded(old(out.out), before, out.out, q, Part(t, done), k, t[k]);
            PartGrows(t, done, k);
            todo := todo - {k};
            assert m.entries.Keys - todo == done + {k};
          }
          assert m.entries.Keys - {} == t.Keys;
          assert Part(t, t.Keys) == t;
      }
    }

    /** _flatten("", data, {}) */
    method Flattened() returns (out: Leaves)
      requires Valid()
      ensures fresh(out) && Flattens(out.out, Node(Contents()))
    {
      out := new Leaves();
      Flatten("", Sub(data), out, []);
      AddedToNothing(out.out, Node(trees[data]));
    }

    /** The write and the removal of verify_collection: whether the value was sealed and
        whether the commit of the write succeeded come from outside. */
    method VerifyCollection(encrypted: bool, sealed: string, committed: bool) returns (finished: bool)
      requires Valid()
      modifies this, trees.Keys
      ensures Valid() && finished == (encrypted && committed)
      ensures VERIFY_KEY in Contents() <==> if encrypted then !committed else VERIFY_KEY in old(Contents())
      ensures Contents() - {VERIFY_KEY} == old(Contents()) - {VERIFY_KEY}
      ensures finished ==> (Contents() == old(Contents()) <==> VERIFY_KEY !in old(Contents()))
    {
      hide Linked, FitsAll, Sound, Put, Cut;
      ghost var d, v := Contents(), Scalar(sealed);
      Removed(d, VERIFY_KEY, v);
      if !encrypted { return false; }
      KeyIsOneName();
      PutLast(d, [VERIFY_KEY], v);
      CutLast(d[VERIFY_KEY := v], VERIFY_KEY);
      var r := SetPath(VERIFY_KEY, sealed);
      assert Contents() == d[VERIFY_KEY := v];
      if !committed { return false; }
      var found := DelPath(VERIFY_KEY);
      assert Contents() == d - {VERIFY_KEY};
      finished := true;
    }
  }

  lemma Removed(d: Dict, k: Name, v: Tree)
    ensures d[k := v] - {k} == d - {k} && (d - {k}) - {k} == d - {k} && k !in d - {k}
    ensures d - {k} == d <==> k !in d
  {
    if k !in d { assert d - {k} == d; }
  }

  lemma CutLast(d: Dict, k: Name)
    ensures Cut(d, [k]) == (d - {k}, k in d)
  {
    if k !in d { assert d - {k} == d; }
  }

  lemma KeyIsOneName()
    ensures Split(VERIFY_KEY, '.') == [VERIFY_KEY]
  {
    SplitWhole(VERIFY_KEY, '.');
  }

  lemma PrunedTop(d: Dict)
    ensures Pruned(d, []) == d
  {
  }

  // ----------------------------------------------------------------------- flattening

  function Part(d: Dict, names: set<Name>): Dict {
    map k | k in d && k in names :: d[k]
  }

  lemma PartGrows(d: Dict, names: set<Name>, k: Name)
    requires k in d
    ensures Part(d, names + {k}) == Part(d, names)[k := d[k]]
  {
  }

  ghost predicate NamedBelow(q: Path, t: Tree, k: string, v: Tree) {
    exists r :: Dotted(q + r) == k && LeafAt(t, r) == Some(v)
  }

  /** after is before with the leaves of t, found at the path q, written in. */
  ghost predicate Added(before: Dict, after: Dict, q: Path, t: Tree) {
    && (forall r :: LeafAt(t, r).Some? ==> Dotted(q + r) in after)
    && before.Keys <= after.Keys
    && (forall k :: k in after ==> (k in before && after[k] == before[k]) || NamedBelow(q, t, k, after[k]))
  }

  lemma LeafAdded(before: Dict, q: Path, t: Tree)
    requires !t.Node?
    ensures Added(before, before[Dotted(q) := t], q, t)
  {
    hide Dotted;
    EmptyAppends(q);
    LeafAtTop(t);
    forall r | LeafAt(t, r).Some? ensures r == [] {}
  }

  lemma NothingAdded(before: Dict, q: Path)
    ensures Added(before, before, q, Node(map[]))
  {
    forall r ensures LeafAt(Node(map[]), r) == None {
      if r != [] { LeafStep(map[], r); }
    }
  }

  /** One more entry of a mapping. */
  lemma EntryAdded(first: Dict, before: Dict, after: Dict, q: Path, d: Dict, k: Name, t: Tree)
    requires Added(first, before, q, Node(d)) && Added(before, after, q + [k], t) && k !in d
    ensures Added(first, after, q, Node(d[k := t]))
  {
    hide Dotted;
    var d' := d[k := t];
    forall r | LeafAt(Node(d'), r).Some? ensures Dotted(q + r) in after {
      LeafAtTop(Node(d'));
      LeafStep(d', r);
      LeafStep(d, r);
      Regroup(q, r);
    }
    forall n | n in after ensures (n in first && after[n] == first[n]) || NamedBelow(q, Node(d'), n, after[n]) {
      if n in before && after[n] == before[n] {
        if NamedBelow(q, Node(d), n, before[n]) {
          var r :| Dotted(q + r) == n && LeafAt(Node(d), r) == Some(before[n]);
          LeafAtTop(Node(d));
          LeafStep(d, r);
          LeafStep(d', r);
        }
      } else {
        var r :| Dotted(q + [k] + r) == n && LeafAt(t, r) == Some(after[n]);
        HeadTail(k, r);
        LeafStep(d', [k] + r);
        Associates(q, [k], r);
      }
    }
  }

  lemma Regroup(q: Path, r: Path)
    requires r != []
    ensures q + r == q + [r[0]] + r[1..]
  {
  }

  lemma AddedToNothing(out: Dict, t: Tree)
    requires Added(map[], out, [], t)
    ensures Flattens(out, t)
  {
    hide Added;
    forall q | LeafAt(t, q).Some? ensures Dotted(q) in out { LeafWritten(out, t, q); }
    forall k | k in out ensures exists q :: Named(t, q, k) && LeafAt(t, q) == Some(out[k]) {
      var q := WrittenLeaf(out, t, k);
      assert Named(t, q, k);
    }
  }

  lemma LeafWritten(out: Dict, t: Tree, q: Path)
    requires Added(map[], out, [], t) && LeafAt(t, q).Some?
    ensures Dotted(q) in out
  {
    hide Dotted, LeafAt;
    EmptyAppends(q);
  }

  lemma WrittenLeaf(out: Dict, t: Tree, k: string) returns (q: Path)
    requires Added(map[], out, [], t) && k in out
    ensures Dotted(q) == k && LeafAt(t, q) == Some(out[k])
  {
    hide Dotted, LeafAt;
    q :| Dotted([] + q) == k && LeafAt(t, q) == Some(out[k]);
    EmptyAppends(q);
  }
}
