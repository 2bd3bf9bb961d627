/** Nested pillar data as values: what a dotted set, a dotted delete and flattening
    mean, and how they undo and see each other. */
module PillarTree {
  import opened Options
  import opened Sequences
  import opened Text

  type Name = string
  type Path = seq<Name>

  /** A YAML value: null, any other value that is not a mapping, or a mapping. */
  datatype Tree = Null | Scalar(text: string) | Node(kids: Dict)

  type Dict = map<Name, Tree>

  datatype Result<T> = Ok(value: T) | NotAMapping(name: Name)

  // ------------------------------------------------------------------- the two edits

  /** What _set_path descends into: an absent or null child counts as an empty
      mapping, any other non-mapping stops it. */
  function Below(d: Dict, name: Name): Result<Dict> {
    if name !in d || d[name].Null? then Ok(map[])
    else if d[name].Node? then Ok(d[name].kids)
    else NotAMapping(name)
  }

  /** _set_path */
  function Put(d: Dict, p: Path, v: Tree): Result<Dict>
    requires p != []
    decreases p
  {
    if |p| == 1 then Ok(d[p[0] := v])
    else
      match Below(d, p[0])
      case NotAMapping(name) => NotAMapping(name)
      case Ok(below) =>
        match Put(below, p[1..], v)
        case NotAMapping(name) => NotAMapping(name)
        case Ok(inner) => Ok(d[p[0] := Node(inner)])
  }

  /** _del_path: the mapping afterwards and whether anything was deleted. */
  function Cut(d: Dict, p: Path): (Dict, bool)
    requires p != []
    decreases p
  {
    if |p| == 1 then
      if p[0] in d then (d - {p[0]}, true) else (d, false)
    else if p[0] in d && d[p[0]].Node? then
      var (inner, found) := Cut(d[p[0]].kids, p[1..]);
      if !found then (d, false)
      else if inner == map[] then (d - {p[0]}, true)
      else (d[p[0] := Node(inner)], true)
    else (d, false)
  }

  // ------------------------------------------------------------- looking at a tree

  /** The subtree at a path. */
  function Get(t: Tree, q: Path): Option<Tree>
    decreases q
  {
    if q == [] then Some(t)
    else if t.Node? && q[0] in t.kids then Get(t.kids[q[0]], q[1..])
    else None
  }

  /** The leaf at a path: a value that is not a mapping. */
  function LeafAt(t: Tree, q: Path): Option<Tree> {
    var sub := Get(t, q);
    if sub.Some? && sub.value.Node? then None else sub
  }

  /** No mapping inside t is empty. */
  predicate NoEmpty(t: Tree) {
    t.Node? ==> forall k :: k in t.kids ==> t.kids[k] != Node(map[]) && NoEmpty(t.kids[k])
  }

  /** Something other than a mapping, and not null, lies on the way to p. */
  predicate Blocked(d: Dict, p: Path)
    requires p != []
  {
    exists i :: 0 < i < |p| && Get(Node(d), p[..i]).Some? && Get(Node(d), p[..i]).value.Scalar?
  }

  /** A null lies on the way to p. */
  predicate NullOnTheWay(d: Dict, p: Path)
    requires p != []
  {
    exists i :: 0 < i < |p| && Get(Node(d), p[..i]) == Some(Null)
  }

  lemma GetBelow(d: Dict, p: Path, i: nat)
    requires p != [] && i < |p|
    ensures Get(Node(d), p[..i + 1]) == if p[0] in d then Get(d[p[0]], p[1..][..i]) else None
  {
    assert p[..i + 1][1..] == p[1..][..i];
  }

  lemma BlockedBelow(d: Dict, p: Path)
    requires |p| > 1
    ensures Blocked(d, p) <==> p[0] in d && (d[p[0]].Scalar? || (d[p[0]].Node? && Blocked(d[p[0]].kids, p[1..])))
  {
    hide Get;
    GetBelow(d, p, 0);
    GetRoot(if p[0] in d then d[p[0]] else Null);
    assert p[1..][..0] == [];
    if Blocked(d, p) {
      var i :| 0 < i < |p| && Get(Node(d), p[..i]).Some? && Get(Node(d), p[..i]).value.Scalar?;
      GetBelow(d, p, i - 1);
      if !d[p[0]].Scalar? { GetInside(d[p[0]], p[1..][..i - 1]); }
    }
    if p[0] in d && d[p[0]].Node? && Blocked(d[p[0]].kids, p[1..]) {
      var i :| 0 < i < |p[1..]| && Get(d[p[0]], p[1..][..i]).Some? && Get(d[p[0]], p[1..][..i]).value.Scalar?;
      GetBelow(d, p, i);
    }
  }

  lemma GetRoot(t: Tree)
    ensures Get(t, []) == Some(t)
  {
  }

  lemma GetInside(t: Tree, q: Path)
    ensures Get(t, q).Some? && q != [] ==> t.Node?
  {
  }

  // -------------------------------------------------------------------- what Put does

  /** Setting fails exactly when a value that is neither a mapping nor null is in the
      way. */
  lemma {:induction false} PutFails(d: Dict, p: Path, v: Tree)
    requires p != []
    ensures Put(d, p, v).NotAMapping? <==> Blocked(d, p)
    decreases p
  {
    if |p| > 1 {
      BlockedBelow(d, p);
      var below := Below(d, p[0]);
      if below.Ok? {
        PutFails(below.value, p[1..], v);
        if below.value == map[] { EmptyIsOpen(p[1..]); }
      }
    }
  }

  lemma EmptyIsOpen(p: Path)
    requires p != []
    ensures !Blocked(map[], p)
  {
  }

  lemma LeafStep(d: Dict, q: Path)
    requires q != []
    ensures LeafAt(Node(d), q) == if q[0] in d then LeafAt(d[q[0]], q[1..]) else None
    ensures LeafAt(Node(map[]), q) == None
  {
  }

  lemma LeafAtTop(t: Tree)
    ensures LeafAt(t, []) == if t.Node? then None else Some(t)
  {
  }

  lemma HeadsAgree(p: Path, q: Path)
    requires p != [] && q != [] && p[0] == q[0]
    ensures p <= q <==> p[1..] <= q[1..]
    ensures p == q <==> p[1..] == q[1..]
  {
    assert q == [q[0]] + q[1..] && p == [p[0]] + p[1..];
  }

  /** Setting a value writes the leaf at p, clears every leaf below p and any null
      above it, and touches no other leaf. */
  lemma {:induction false} PutLeaves(d: Dict, p: Path, v: Tree, q: Path)
    requires p != [] && Put(d, p, v).Ok? && !v.Node?
    ensures LeafAt(Node(Put(d, p, v).value), q)
         == if q == p then Some(v) else if p <= q || q <= p then None else LeafAt(Node(d), q)
    decreases p
  {
    if q != [] && q[0] == p[0] {
      HeadsAgree(p, q);
      HeadsAgree(q, p);
      if |p| == 1 {
        assert p[1..] == [];
        assert Get(v, q[1..]) == if q[1..] == [] then Some(v) else None;
      } else {
        var below := Below(d, p[0]).value;
        PutLeaves(below, p[1..], v, q[1..]);
        LeafStep(d, q);
        LeafStep(Put(d, p, v).value, q);
        if q[1..] != [] { LeafStep(below, q[1..]); } else { LeafAtTop(if p[0] in d then d[p[0]] else Null); }
      }
    } else if q != [] {
      assert !(p <= q) && !(q <= p);
    }
  }

  /** The error names the step that is not a mapping. */
  lemma {:induction false} PutBlames(d: Dict, p: Path, v: Tree) returns (i: nat)
    requires p != [] && Put(d, p, v).NotAMapping?
    ensures 0 < i < |p| && Get(Node(d), p[..i]).Some? && Get(Node(d), p[..i]).value.Scalar?
    ensures Put(d, p, v) == NotAMapping(p[i - 1])
    decreases p
  {
    hide Get;
    GetBelow(d, p, 0);
    assert p[1..][..0] == [];
    GetRoot(if p[0] in d then d[p[0]] else Null);
    if Below(d, p[0]).NotAMapping? {
      i := 1;
    } else {
      var k := PutBlames(Below(d, p[0]).value, p[1..], v);
      i := k + 1;
      GetBelow(d, p, k);
      NothingBelow(p[1..][..k]);
    }
  }

  lemma NothingBelow(q: Path)
    ensures q != [] ==> Get(Node(map[]), q) == None
  {
  }

  lemma GetStep(d: Dict, q: Path)
    requires q != []
    ensures Get(Node(d), q) == if q[0] in d then Get(d[q[0]], q[1..]) else None
  {
  }

  lemma GetDead(t: Tree, q: Path)
    requires q != [] && !t.Node?
    ensures Get(t, q) == None
  {
  }

  /** Setting any value, a mapping too, seen at every path: at and below p it is the
      value's own, above p there are mappings, and everywhere else nothing changed, empty
      mappings included. */
  lemma {:induction false} PutGets(d: Dict, p: Path, v: Tree, q: Path)
    requires p != [] && Put(d, p, v).Ok?
    ensures var after := Node(Put(d, p, v).value);
            if p <= q then Get(after, q) == Get(v, q[|p|..])
            else if q <= p then Get(after, q).Some? && Get(after, q).value.Node?
            else Get(after, q) == Get(Node(d), q)
    decreases p
  {
    hide Get;
    var after := Put(d, p, v).value;
    if q == [] {
      GetRoot(Node(after));
    } else if q[0] == p[0] {
      HeadsAgree(p, q);
      HeadsAgree(q, p);
      GetStep(d, q);
      GetStep(after, q);
      if |p| == 1 {
        assert p[1..] == [] && q[1..] == q[|p|..];
      } else {
        var below := Below(d, p[0]).value;
        PutGets(below, p[1..], v, q[1..]);
        assert p <= q ==> q[1..][|p[1..]|..] == q[|p|..];
        if q[1..] != [] {
          NothingBelow(q[1..]);
          if p[0] in d && !d[p[0]].Node? { GetDead(d[p[0]], q[1..]); }
        }
      }
    } else {
      GetStep(d, q);
      GetStep(after, q);
      assert !(p <= q) && !(q <= p);
    }
  }

  // -------------------------------------------------------------------- what Cut does

  /** Deleting a key that resolves, seen at every path: nothing is left at or below p,
      what lies beside the way to p is untouched, empty mappings included, and of the
      mappings on the way exactly those stay that still hold something. */
  lemma {:induction false} CutGets(d: Dict, p: Path, q: Path)
    requires p != [] && Get(Node(d), p).Some?
    ensures var after := Node(Cut(d, p).0);
            if p <= q then Get(after, q) == None
            else if q <= p then
              (q != [] ==> Get(after, q) != Some(Node(map[]))) && (Get(after, q).Some? ==> Get(after, q).value.Node?)
            else Get(after, q) == Get(Node(d), q)
    decreases p
  {
    hide Get;
    var after := Cut(d, p).0;
    GetStep(d, p);
    CutFinds(d, p);
    if q == [] {
      GetRoot(Node(after));
    } else if q[0] == p[0] {
      HeadsAgree(p, q);
      HeadsAgree(q, p);
      GetStep(d, q);
      GetStep(after, q);
      if |p| == 1 {
        assert p[1..] == [];
      } else {
        CutGets(d[p[0]].kids, p[1..], q[1..]);
        CutFinds(d[p[0]].kids, p[1..]);
        var inner := Cut(d[p[0]].kids, p[1..]).0;
        GetRoot(Node(inner));
        if q[1..] != [] { NothingBelow(q[1..]); }
      }
    } else {
      GetStep(d, q);
      GetStep(after, q);
      assert !(p <= q) && !(q <= p);
    }
  }

  /** Deleting finds exactly the keys that resolve. */
  lemma {:induction false} CutFinds(d: Dict, p: Path)
    requires p != []
    ensures Cut(d, p).1 <==> Get(Node(d), p).Some?
    ensures !Cut(d, p).1 ==> Cut(d, p).0 == d
    decreases p
  {
    if |p| > 1 && p[0] in d && d[p[0]].Node? { CutFinds(d[p[0]].kids, p[1..]); }
  }

  /** Deleting removes the leaves at and below p and no other. */
  lemma {:induction false} CutLeaves(d: Dict, p: Path, q: Path)
    requires p != []
    ensures LeafAt(Node(Cut(d, p).0), q) == if p <= q then None else LeafAt(Node(d), q)
    decreases p
  {
    if q != [] && q[0] == p[0] {
      HeadsAgree(p, q);
      LeafStep(d, q);
      LeafStep(Cut(d, p).0, q);
      if |p| == 1 {
        assert p[1..] == [];
      } else if p[0] in d && d[p[0]].Node? {
        CutLeaves(d[p[0]].kids, p[1..], q[1..]);
        CutFinds(d[p[0]].kids, p[1..]);
        if q[1..] != [] { LeafStep(map[], q[1..]); }
      } else if p[0] in d && q[1..] != [] {
        assert LeafAt(d[p[0]], q[1..]) == None;
      }
    }
  }

  // -------------------------------------------------------------- deleting a fresh set

  /** The deepest existing mapping on the way to p is the top one or is not empty, and
      does not hold the next name. */
  predicate Restorable(d: Dict, p: Path)
    requires p != []
    decreases p
  {
    p[0] !in d
    || (|p| > 1 && d[p[0]].Node? && d[p[0]].kids != map[] && Restorable(d[p[0]].kids, p[1..]))
  }

  lemma {:induction false} PutCutEmpty(p: Path, v: Tree)
    requires p != []
    ensures Put(map[], p, v).Ok? && Put(map[], p, v).value != map[]
    ensures Cut(Put(map[], p, v).value, p) == (map[], true)
    decreases p
  {
    if |p| > 1 {
      PutCutEmpty(p[1..], v);
      var set' := Put(map[], p, v).value;
      assert set'[p[0]].Node?;
      assert set' - {p[0]} == map[];
    } else {
      assert map[p[0] := v] - {p[0]} == map[];
    }
  }

  /** Deleting what was just set always finds it, and restores the mapping exactly
      when it was restorable. */
  lemma {:induction false} SetThenDelete(d: Dict, p: Path, v: Tree)
    requires p != [] && Put(d, p, v).Ok?
    ensures Cut(Put(d, p, v).value, p).1
    ensures Cut(Put(d, p, v).value, p).0 == d <==> Restorable(d, p)
    decreases p
  {
    var set' := Put(d, p, v).value;
    if |p| == 1 {
      if p[0] !in d { assert set' - {p[0]} == d; }
    } else {
      var below := Below(d, p[0]).value;
      SetThenDelete(below, p[1..], v);
      var inner := Cut(set'[p[0]].kids, p[1..]).0;
      if below == map[] {
        PutCutEmpty(p[1..], v);
        if p[0] !in d { assert set' - {p[0]} == d; }
      } else if inner == map[] {
        assert p[0] !in Cut(set', p).0;
      } else {
        assert Cut(set', p).0 == d[p[0] := Node(inner)];
        if inner == below { assert d[p[0] := Node(inner)] == d; }
      }
    }
  }

  /** A parent that was there but empty is pruned, and a null that was overwritten does
      not come back. */
  lemma EmptyParentIsPruned(d: Dict, a: Name, b: Name, v: Tree)
    requires a in d && (d[a] == Null || d[a] == Node(map[]))
    ensures Put(d, [a, b], v).Ok?
    ensures Cut(Put(d, [a, b], v).value, [a, b]).0 != d
  {
    var p := [a, b];
    assert p[1..] == [b] && Below(d, a) == Ok(map[]);
    assert Put(map[], [b], v).Ok?;
    SetThenDelete(d, p, v);
  }

  /** Among mappings that hold no empty mapping, the restorable ones are those where
      the key is absent and no null lies on the way. */
  lemma {:induction false} RestorableMeans(d: Dict, p: Path)
    requires p != [] && NoEmpty(Node(d)) && !Blocked(d, p)
    ensures Restorable(d, p) <==> Get(Node(d), p) == None && !NullOnTheWay(d, p)
    decreases p
  {
    if |p| == 1 {
      GetBelow(d, p, 0);
      assert p[..1] == p;
    } else {
      NullBelow(d, p);
      BlockedBelow(d, p);
      if p[0] in d && d[p[0]].Node? { RestorableMeans(d[p[0]].kids, p[1..]); }
    }
  }

  lemma NullBelow(d: Dict, p: Path)
    requires |p| > 1
    ensures NullOnTheWay(d, p) <==>
              && p[0] in d
              && (d[p[0]].Null? || (d[p[0]].Node? && NullOnTheWay(d[p[0]].kids, p[1..])))
  {
    hide Get;
    GetBelow(d, p, 0);
    GetRoot(if p[0] in d then d[p[0]] else Null);
    assert p[1..][..0] == [];
    if NullOnTheWay(d, p) {
      var i :| 0 < i < |p| && Get(Node(d), p[..i]) == Some(Null);
      GetBelow(d, p, i - 1);
      if !d[p[0]].Null? { GetInside(d[p[0]], p[1..][..i - 1]); }
    }
    if p[0] in d && d[p[0]].Node? && NullOnTheWay(d[p[0]].kids, p[1..]) {
      var i :| 0 < i < |p[1..]| && Get(d[p[0]], p[1..][..i]) == Some(Null);
      GetBelow(d, p, i);
    }
  }

  // ----------------------------------------------------------- the no-empty-mapping form

  lemma EntryKeepsNoEmpty(d: Dict, k: Name, t: Tree)
    requires NoEmpty(Node(d)) && NoEmpty(t) && t != Node(map[])
    ensures NoEmpty(Node(d[k := t])) && d[k := t] != map[]
  {
    var d' := d[k := t];
    assert k in d';
    forall j | j in d' ensures d'[j] != Node(map[]) && NoEmpty(d'[j]) {
      if j != k { assert d'[j] == d[j] && NoEmpty(d[j]); }
    }
  }

  /** Setting a value keeps a mapping free of empty mappings. */
  lemma {:induction false} PutKeepsNoEmpty(d: Dict, p: Path, v: Tree)
    requires p != [] && NoEmpty(Node(d)) && !v.Node? && Put(d, p, v).Ok?
    ensures NoEmpty(Node(Put(d, p, v).value)) && Put(d, p, v).value != map[]
    decreases p
  {
    if |p| > 1 {
      var below := Below(d, p[0]).value;
      assert NoEmpty(Node(below));
      PutKeepsNoEmpty(below, p[1..], v);
      EntryKeepsNoEmpty(d, p[0], Node(Put(below, p[1..], v).value));
    } else {
      EntryKeepsNoEmpty(d, p[0], v);
    }
  }

  /** So does deleting, pruning the mappings it empties. */
  lemma {:induction false} CutKeepsNoEmpty(d: Dict, p: Path)
    requires p != [] && NoEmpty(Node(d))
    ensures NoEmpty(Node(Cut(d, p).0))
    decreases p
  {
    if |p| > 1 && p[0] in d && d[p[0]].Node? { CutKeepsNoEmpty(d[p[0]].kids, p[1..]); }
  }

  // ------------------------------------------------------------------------ flattening

  /** rstrip(".") */
  function StripDots(s: string): string {
    if s != "" && s[|s| - 1] == '.' then StripDots(s[..|s| - 1]) else s
  }

  /** The prefix a path is flattened under: every name followed by a dot. */
  function Prefix(q: Path): string {
    if q == [] then "" else q[0] + "." + Prefix(q[1..])
  }

  /** The dotted name of a leaf. */
  function Dotted(q: Path): string {
    StripDots(Prefix(q))
  }

  ghost predicate Named(t: Tree, q: Path, k: string) {
    Dotted(q) == k && LeafAt(t, q).Some?
  }

  /** out is a flattening of t: every leaf has its dotted name in it, and every entry
      is a leaf of that name. */
  ghost predicate Flattens(out: Dict, t: Tree) {
    && (forall q :: LeafAt(t, q).Some? ==> Dotted(q) in out)
    && (forall k :: k in out ==> exists q :: Named(t, q, k) && LeafAt(t, q) == Some(out[k]))
  }

  ghost predicate DotFree(q: Path) {
    forall i :: 0 <= i < |q| ==> '.' !in q[i]
  }

  /** No name on the way to a leaf of t contains a dot. */
  ghost predicate Plain(t: Tree) {
    forall q :: LeafAt(t, q).Some? ==> DotFree(q)
  }

  lemma {:induction false} StripDotsMeans(s: string)
    ensures StripDots(s) <= s
    ensures StripDots(s) == "" || StripDots(s)[|StripDots(s)| - 1] != '.'
    ensures forall i :: |StripDots(s)| <= i < |s| ==> s[i] == '.'
  {
    if s != "" && s[|s| - 1] == '.' { StripDotsMeans(s[..|s| - 1]); }
  }

  /** What remains of s is known from its length: a prefix that does not end in a dot,
      with nothing but dots after it. */
  lemma {:induction false} StripDotsIs(s: string, d: string)
    requires d <= s && (d == "" || d[|d| - 1] != '.')
    requires forall i :: |d| <= i < |s| ==> s[i] == '.'
    ensures StripDots(s) == d
  {
    if s != d { StripDotsIs(s[..|s| - 1], d); }
  }

  lemma PrefixEnds(q: Path)
    requires q != []
    ensures Prefix(q) != "" && Prefix(q)[|Prefix(q)| - 1] == '.'
  {
  }

  lemma {:induction false} PrefixSnoc(q: Path, x: Name)
    ensures Prefix(q + [x]) == Prefix(q) + x + "."
  {
    if q == [] {
      assert [x][1..] == [];
    } else {
      SnocTail(q, x);
      PrefixSnoc(q[1..], x);
      assert (q[0] + "." + Prefix(q[1..])) + x + "." == q[0] + "." + (Prefix(q[1..]) + x + ".");
    }
  }

  /** The first dot ends the first name. */
  lemma FirstName(a: string, x: string, b: string, y: string)
    requires '.' !in a && '.' !in b && a + "." + x <= b + "." + y
    ensures a == b && x <= y
  {
    var s, t := a + "." + x, b + "." + y;
    assert t[..|s|] == s;
    assert s[|a|] == '.' && t[|b|] == '.';
    assert a == s[..|a|] && b == t[..|b|];
    assert x == s[|a| + 1..] && y == t[|b| + 1..];
  }

  /** Dot-free paths are ordered as their prefixes are. */
  lemma {:induction false} PrefixOrder(a: Path, b: Path)
    requires DotFree(a) && DotFree(b)
    ensures Prefix(a) <= Prefix(b) <==> a <= b
  {
    if a != [] && b != [] {
      PrefixOrder(a[1..], b[1..]);
      assert a == [a[0]] + a[1..] && b == [b[0]] + b[1..];
      if Prefix(a) <= Prefix(b) { FirstName(a[0], Prefix(a[1..]), b[0], Prefix(b[1..])); }
    }
  }

  lemma {:induction false} LeavesApart(t: Tree, a: Path, b: Path)
    requires LeafAt(t, a).Some? && LeafAt(t, b).Some? && a <= b
    ensures a == b
    decreases a
  {
    if a != [] { LeavesApart(t.kids[a[0]], a[1..], b[1..]); }
  }

  /** Dotted names identify the leaves of a dot-free tree. */
  lemma DottedIdentifies(t: Tree, a: Path, b: Path)
    requires LeafAt(t, a).Some? && LeafAt(t, b).Some? && DotFree(a) && DotFree(b)
    requires Dotted(a) == Dotted(b)
    ensures a == b
  {
    StripDotsMeans(Prefix(a));
    StripDotsMeans(Prefix(b));
    PrefixOrder(a, b);
    PrefixOrder(b, a);
    if |Prefix(a)| <= |Prefix(b)| {
      assert Prefix(a) <= Prefix(b);
      LeavesApart(t, a, b);
    } else {
      assert Prefix(b) <= Prefix(a);
      LeavesApart(t, b, a);
    }
  }

  lemma FlatValue(out: Dict, t: Tree, q: Path)
    requires Flattens(out, t) && Plain(t) && LeafAt(t, q).Some?
    ensures Dotted(q) in out && LeafAt(t, q) == Some(out[Dotted(q)])
  {
    var k := Dotted(q);
    var q' :| Named(t, q', k) && LeafAt(t, q') == Some(out[k]);
    DottedIdentifies(t, q, q');
  }

  /** A key of a collection in its dotted form: it does not end in a dot. */
  predicate Key(s: string) {
    s == "" || s[|s| - 1] != '.'
  }

  /** Flattened name k is the key or lies below it. */
  predicate AtOrBelow(k: string, key: string) {
    k == key || key + "." <= k
  }

  lemma {:induction false} PrefixIsJoin(p: Path)
    requires p != []
    ensures Prefix(p) == Join(p, '.') + "."
  {
    if |p| == 1 {
      assert p[1..] == [];
      assert p[0] + "." + "" == p[0] + ".";
    } else {
      PrefixIsJoin(p[1..]);
      assert p[0] + "." + (Join(p[1..], '.') + ".") == (p[0] + ['.'] + Join(p[1..], '.')) + ".";
    }
  }

  /** A key is the dotted name of the path it splits into, and the leaves at or below
      that path are the ones whose names are at or below the key. */
  lemma KeyAndPath(key: string, q: Path)
    requires Key(key) && DotFree(q) && q != []
    ensures var p := Split(key, '.');
            && DotFree(p) && Dotted(p) == key
            && (p <= q <==> AtOrBelow(Dotted(q), key))
  {
    var p := Split(key, '.');
    JoinSplit(key, '.');
    PrefixIsJoin(p);
    StripDotsIs(Prefix(p), key);
    PrefixOrder(p, q);
    PrefixEnds(q);
    NameBelow(key, Prefix(q));
  }

  lemma NameBelow(key: string, s: string)
    requires Key(key) && s != "" && s[|s| - 1] == '.'
    ensures key + "." <= s <==> AtOrBelow(StripDots(s), key)
  {
    StripDotsMeans(s);
    var d := StripDots(s);
    assert |d| < |s| && s[|d|] == '.';
    assert key + "." <= s ==> key <= s;
    assert key <= s && key != "" ==> s[|key| - 1] == key[|key| - 1];
    if key + "." <= s {
      if |key| < |d| {
        assert key + "." <= d;
      } else if |d| < |key| {
        assert false;
      } else {
        assert key == s[..|key|] && d == s[..|d|];
      }
    }
    if d == key { assert key + "." == s[..|d| + 1]; }
  }

  function Outside(out: Dict, key: string): Dict {
    map k | k in out && !AtOrBelow(k, key) :: out[k]
  }

  function With(out: Dict, key: string, written: Option<Tree>): Dict {
    if written.Some? then out[key := written.value] else out
  }

  /** When t' is t with everything at or below p replaced by one written leaf, or by
      none, a flattening of t' is one of t with everything at or below the key replaced
      likewise. */
  lemma FlattenFollows(before: Dict, t: Tree, after: Dict, t': Tree, key: string, written: Option<Tree>)
    requires t.Node? && t'.Node? && Plain(t) && Key(key)
    requires Flattens(before, t) && Flattens(after, t')
    requires var p := Split(key, '.');
             forall q :: LeafAt(t', q) == if q == p then written else if p <= q then None else LeafAt(t, q)
    ensures after == With(Outside(before, key), key, written)
  {
    hide Dotted, AtOrBelow, Key, Split, LeafAt;
    var p := Split(key, '.');
    var expected := With(Outside(before, key), key, written);
    KeyAndPath(key, p) by { JoinSplit(key, '.'); }
    assert Plain(t') by { forall q | LeafAt(t', q).Some? ensures DotFree(q) {} }
    forall k | k in after ensures k in expected && after[k] == expected[k] {
      var q :| Named(t', q, k) && LeafAt(t', q) == Some(after[k]);
      LeafAtTop(t');
      KeyAndPath(key, q);
      if q != p { FlatValue(before, t, q); }
    }
    forall k | k in expected ensures k in after {
      if k != key || written.None? {
        var q :| Named(t, q, k) && LeafAt(t, q) == Some(before[k]);
        LeafAtTop(t);
        KeyAndPath(key, q);
        assert LeafAt(t', q).Some?;
      } else {
        assert LeafAt(t', p).Some?;
      }
    }
  }

  /** Flattening after a set: the old leaves, with everything at or below the key
      replaced by it. */
  lemma FlattenAfterSet(d: Dict, key: string, v: Tree, before: Dict, after: Dict)
    requires Plain(Node(d)) && Key(key) && !v.Node?
    requires Put(d, Split(key, '.'), v).Ok? && !NullOnTheWay(d, Split(key, '.'))
    requires Flattens(before, Node(d)) && Flattens(after, Node(Put(d, Split(key, '.'), v).value))
    ensures after == Outside(before, key)[key := v]
  {
    hide Put, Get, Key, Split, NullOnTheWay, Plain, Flattens, Outside;
    var p := Split(key, '.');
    var d' := Put(d, p, v).value;
    forall q ensures LeafAt(Node(d'), q) == if q == p then Some(v) else if p <= q then None else LeafAt(Node(d), q) {
      PutLeaves(d, p, v, q);
      if q <= p && q != p { NothingOnTheWay(d, p, v, q); }
    }
    FlattenFollows(before, Node(d), after, Node(d'), key, Some(v));
  }

  lemma NothingOnTheWay(d: Dict, p: Path, v: Tree, q: Path)
    requires p != [] && q <= p && q != p && Put(d, p, v).Ok? && !NullOnTheWay(d, p)
    ensures LeafAt(Node(d), q) == None
  {
    PutFails(d, p, v);
    LeafAtTop(Node(d));
    assert q == p[..|q|];
  }

  /** Flattening after a delete: the old leaves that are neither at nor below the
      key. */
  lemma FlattenAfterDelete(d: Dict, key: string, before: Dict, after: Dict)
    requires Plain(Node(d)) && Key(key)
    requires Flattens(before, Node(d)) && Flattens(after, Node(Cut(d, Split(key, '.')).0))
    ensures after == Outside(before, key)
  {
    hide Cut, Get, Key, Split, Plain, Flattens, Outside;
    var p := Split(key, '.');
    var d' := Cut(d, p).0;
    forall q ensures LeafAt(Node(d'), q) == if q == p then None else if p <= q then None else LeafAt(Node(d), q) {
      CutLeaves(d, p, q);
    }
    FlattenFollows(before, Node(d), after, Node(d'), key, None);
  }
}
