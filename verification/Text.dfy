/** Strings as the source handles them: ordering, splitting, joining, stripping. */
module Text {

  // ------------------------------------------------------------------- ordering

  /** Python's string order: by code point, a proper prefix first. */
  predicate AtMost(a: string, b: string) {
    if a == "" then true
    else if b == "" then false
    else a[0] < b[0] || (a[0] == b[0] && AtMost(a[1..], b[1..]))
  }

  lemma {:induction false} AtMostTotal(a: string, b: string)
    ensures AtMost(a, b) || AtMost(b, a)
  {
    if a != "" && b != "" { AtMostTotal(a[1..], b[1..]); }
  }

  lemma {:induction false} AtMostAntisymmetric(a: string, b: string)
    requires AtMost(a, b) && AtMost(b, a)
    ensures a == b
  {
    if a != "" {
      AtMostAntisymmetric(a[1..], b[1..]);
      assert a == [a[0]] + a[1..] && b == [b[0]] + b[1..];
    }
  }

  lemma {:induction false} AtMostTransitive(a: string, b: string, c: string)
    requires AtMost(a, b) && AtMost(b, c)
    ensures AtMost(a, c)
  {
    if a != "" && a[0] == b[0] && b[0] == c[0] { AtMostTransitive(a[1..], b[1..], c[1..]); }
  }

  /** a has the lower character at place k, where they first differ. */
  ghost predicate LowerAt(a: string, b: string, k: int) {
    0 <= k < |a| && k < |b| && a[k] < b[k] && forall i :: 0 <= i < k ==> a[i] == b[i]
  }

  /** A string comes before another exactly when it is a prefix of it or has the lower
      character at the first place where they differ. */
  lemma {:induction false} AtMostMeans(a: string, b: string)
    ensures AtMost(a, b) <==> a <= b || exists k :: LowerAt(a, b, k)
  {
    if a != "" && b != "" {
      AtMostMeans(a[1..], b[1..]);
      assert a[0] < b[0] ==> LowerAt(a, b, 0);
      if a[0] == b[0] {
        if k :| LowerAt(a, b, k) { LowerShifts(a, b, k - 1); }
        if k :| LowerAt(a[1..], b[1..], k) { LowerShifts(a, b, k); }
        assert a == [a[0]] + a[1..] && b == [b[0]] + b[1..];
      }
    }
  }

  lemma LowerShifts(a: string, b: string, k: int)
    requires a != "" && b != "" && a[0] == b[0]
    ensures LowerAt(a, b, k + 1) <==> LowerAt(a[1..], b[1..], k)
  {
    if LowerAt(a[1..], b[1..], k) {
      forall i | 0 <= i < k + 1 ensures a[i] == b[i] {
        assert i > 0 ==> a[i] == a[1..][i - 1] && b[i] == b[1..][i - 1];
      }
    }
  }

  predicate IsLeast(x: string, s: set<string>) {
    x in s && forall y :: y in s ==> AtMost(x, y)
  }

  lemma {:induction false} LeastExists(s: set<string>)
    requires s != {}
    ensures exists x :: IsLeast(x, s)
    decreases |s|
  {
    var x :| x in s;
    AtMostTotal(x, x);
    if s == {x} {
      assert IsLeast(x, s);
    } else {
      LeastExists(s - {x});
      var y :| IsLeast(y, s - {x});
      AtMostTotal(x, y);
      var least := if AtMost(x, y) then x else y;
      forall z | z in s ensures AtMost(least, z) {
        if z != x && AtMost(x, y) { AtMostTransitive(x, y, z); }
      }
      assert IsLeast(least, s);
    }
  }

  lemma LeastUnique(a: string, b: string, s: set<string>)
    requires IsLeast(a, s) && IsLeast(b, s)
    ensures a == b
  {
    AtMostAntisymmetric(a, b);
  }

  function Least(s: set<string>): (x: string)
    requires s != {}
    ensures IsLeast(x, s)
  {
    LeastExists(s);
    assert forall a, b :: IsLeast(a, s) && IsLeast(b, s) ==> a == b by {
      forall a, b | IsLeast(a, s) && IsLeast(b, s) ensures a == b { LeastUnique(a, b, s); }
    }
    var x :| IsLeast(x, s);
    x
  }

  /** sorted(s) of a set of strings. */
  function Sorted(s: set<string>): (r: seq<string>)
    ensures forall x :: x in r <==> x in s
    ensures forall i, j :: 0 <= i < j < |r| ==> AtMost(r[i], r[j]) && r[i] != r[j]
    decreases |s|
  {
    if s == {} then [] else var x := Least(s); [x] + Sorted(s - {x})
  }

  /** Insertion into an ordered list, after equal elements' place. */
  function Insert(x: string, s: seq<string>): (r: seq<string>)
    ensures multiset(r) == multiset(s) + multiset{x}
  {
    if s == [] then [x]
    else if AtMost(x, s[0]) then [x] + s
    else
      assert s == [s[0]] + s[1..];
      [s[0]] + Insert(x, s[1..])
  }

  /** sorted(s) of a list, duplicates kept. */
  function SortedList(s: seq<string>): (r: seq<string>)
    ensures multiset(r) == multiset(s)
    ensures |r| == |s|
  {
    if s == [] then []
    else
      assert s == [s[0]] + s[1..];
      var r := Insert(s[0], SortedList(s[1..]));
      assert |multiset(r)| == |multiset(s)|;
      r
  }

  ghost predicate Ordered(s: seq<string>) {
    forall i, j :: 0 <= i < j < |s| ==> AtMost(s[i], s[j])
  }

  lemma {:induction false} InsertMembers(x: string, s: seq<string>)
    ensures forall y :: y in Insert(x, s) <==> y == x || y in s
  {
    if s != [] && !AtMost(x, s[0]) { InsertMembers(x, s[1..]); }
  }

  lemma {:induction false} InsertOrders(x: string, s: seq<string>)
    requires Ordered(s)
    ensures Ordered(Insert(x, s))
  {
    hide AtMost;
    if s != [] {
      if AtMost(x, s[0]) {
        forall j | 0 <= j < |s| ensures AtMost(x, s[j]) {
          if j > 0 { AtMostTransitive(x, s[0], s[j]); }
        }
      } else {
        InsertOrders(x, s[1..]);
        AtMostTotal(x, s[0]);
        InsertMembers(x, s[1..]);
        var r := Insert(x, s[1..]);
        forall j | 0 <= j < |r| ensures AtMost(s[0], r[j]) { assert r[j] in r; }
      }
    }
  }

  lemma {:induction false} SortedListOrdered(s: seq<string>)
    ensures Ordered(SortedList(s))
  {
    if s != [] {
      SortedListOrdered(s[1..]);
      InsertOrders(s[0], SortedList(s[1..]));
    }
  }

  // -------------------------------------------------------- splitting and joining

  /** s.split(sep) for a one-character separator: always at least one piece. */
  function Split(s: string, sep: char): (r: seq<string>)
    ensures |r| >= 1
  {
    if s == "" then [""]
    else
      var rest := Split(s[1..], sep);
      if s[0] == sep then [""] + rest else [[s[0]] + rest[0]] + rest[1..]
  }

  /** sep.join(parts) */
  function Join(parts: seq<string>, sep: char): string {
    if parts == [] then ""
    else if |parts| == 1 then parts[0]
    else parts[0] + [sep] + Join(parts[1..], sep)
  }

  lemma {:induction false} SplitFirst(a: string, rest: string, sep: char)
    requires sep !in a
    ensures Split(a + [sep] + rest, sep) == [a] + Split(rest, sep)
  {
    var s := a + [sep] + rest;
    if a == "" {
      assert s == [sep] + rest && s[1..] == rest;
    } else {
      assert s[1..] == a[1..] + [sep] + rest;
      SplitFirst(a[1..], rest, sep);
      assert [a[0]] + a[1..] == a;
    }
  }

  lemma {:induction false} SplitWhole(a: string, sep: char)
    requires sep !in a
    ensures Split(a, sep) == [a]
  {
    if a != "" {
      SplitWhole(a[1..], sep);
      assert [a[0]] + a[1..] == a;
    }
  }

  /** Splitting undoes joining, for pieces free of the separator. */
  lemma {:induction false} SplitJoin(parts: seq<string>, sep: char)
    requires parts != [] && forall i :: 0 <= i < |parts| ==> sep !in parts[i]
    ensures Split(Join(parts, sep), sep) == parts
  {
    if |parts| == 1 {
      SplitWhole(parts[0], sep);
    } else {
      SplitFirst(parts[0], Join(parts[1..], sep), sep);
      SplitJoin(parts[1..], sep);
      assert [parts[0]] + parts[1..] == parts;
    }
  }

  /** Joining undoes splitting, and the pieces are free of the separator. */
  lemma {:induction false} JoinSplit(s: string, sep: char)
    ensures Join(Split(s, sep), sep) == s
    ensures forall i :: 0 <= i < |Split(s, sep)| ==> sep !in Split(s, sep)[i]
  {
    if s != "" {
      JoinSplit(s[1..], sep);
      var r, rest := Split(s, sep), Split(s[1..], sep);
      assert [s[0]] + s[1..] == s;
      if s[0] == sep {
        assert r[1..] == rest;
      } else {
        assert r[1..] == rest[1..];
        if |rest| > 1 {
          assert [s[0]] + (rest[0] + [sep] + Join(rest[1..], sep)) == ([s[0]] + rest[0]) + [sep] + Join(rest[1..], sep);
        }
      }
    }
  }

  // ------------------------------------------------------------------- stripping

  /** str.isspace for one code point: what str.strip and str.split() remove. */
  predicate IsSpace(c: char) {
    var n := c as int;
    || 9 <= n <= 13 || 28 <= n <= 32 || n == 0x85 || n == 0xA0 || n == 0x1680
    || 0x2000 <= n <= 0x200A || n == 0x2028 || n == 0x2029 || n == 0x202F || n == 0x205F || n == 0x3000
  }

  /** The spaces, one by one. */
  lemma SpacesAre(c: char)
    ensures IsSpace(c) <==>
              c as int in {0x9, 0xA, 0xB, 0xC, 0xD, 0x1C, 0x1D, 0x1E, 0x1F, 0x20, 0x85, 0xA0, 0x1680,
                           0x2000, 0x2001, 0x2002, 0x2003, 0x2004, 0x2005, 0x2006, 0x2007, 0x2008, 0x2009, 0x200A,
                           0x2028, 0x2029, 0x202F, 0x205F, 0x3000}
  {
  }

  function StripLeft(s: string): string {
    if s != "" && IsSpace(s[0]) then StripLeft(s[1..]) else s
  }

  function StripRight(s: string): string {
    if s != "" && IsSpace(s[|s| - 1]) then StripRight(s[..|s| - 1]) else s
  }

  /** s.strip() */
  function Strip(s: string): string {
    StripRight(StripLeft(s))
  }

  /** No space at either end: what strip leaves alone. */
  predicate Trimmed(s: string) {
    s == "" || (!IsSpace(s[0]) && !IsSpace(s[|s| - 1]))
  }

  lemma {:induction false} StripRightKeeps(s: string)
    ensures StripRight(s) <= s
    ensures StripRight(s) == "" || !IsSpace(StripRight(s)[|StripRight(s)| - 1])
  {
    if s != "" && IsSpace(s[|s| - 1]) { StripRightKeeps(s[..|s| - 1]); }
  }

  lemma {:induction false} StripLeftKeeps(s: string)
    ensures StripLeft(s) == "" || !IsSpace(StripLeft(s)[0])
    ensures forall c :: c in StripLeft(s) ==> c in s
  {
    if s != "" && IsSpace(s[0]) { StripLeftKeeps(s[1..]); }
  }

  /** Strip yields a trimmed string, from the characters of s, and keeps exactly
      the trimmed ones. */
  lemma StripTrims(s: string)
    ensures Trimmed(Strip(s))
    ensures forall c :: c in Strip(s) ==> c in s
    ensures Strip(s) == s <==> Trimmed(s)
  {
    StripLeftKeeps(s);
    StripRightKeeps(StripLeft(s));
    var t := Strip(s);
    assert t != "" ==> t[0] == StripLeft(s)[0];
  }

  predicate AllSpace(s: string) {
    forall i :: 0 <= i < |s| ==> IsSpace(s[i])
  }

  lemma {:induction false} LeftPad(s: string) returns (pad: string)
    ensures s == pad + StripLeft(s) && AllSpace(pad)
  {
    if s != "" && IsSpace(s[0]) {
      var rest := LeftPad(s[1..]);
      pad := [s[0]] + rest;
      assert s == [s[0]] + s[1..];
    } else {
      pad := "";
    }
  }

  lemma {:induction false} RightPad(s: string) returns (pad: string)
    ensures s == StripRight(s) + pad && AllSpace(pad)
  {
    if s != "" && IsSpace(s[|s| - 1]) {
      var rest := RightPad(s[..|s| - 1]);
      pad := rest + [s[|s| - 1]];
      assert s == s[..|s| - 1] + [s[|s| - 1]];
    } else {
      pad := "";
    }
  }

  /** Strip takes spaces off the two ends and nothing else. */
  lemma StripOnlySpaces(s: string) returns (left: string, right: string)
    ensures s == left + Strip(s) + right && AllSpace(left) && AllSpace(right)
  {
    left := LeftPad(s);
    right := RightPad(StripLeft(s));
  }

  // ------------------------------------------------------------ comma-separated ids

  /** {p.strip() for p in s.split(",") if p.strip()} */
  function Names(s: string): set<string> {
    set p | p in Split(s, ',') && Strip(p) != "" :: Strip(p)
  }

  /** An id that survives the comma-separated form: nonempty, trimmed, comma-free. */
  predicate Clean(id: string) {
    id != "" && Trimmed(id) && ',' !in id
  }

  lemma NamesAreClean(s: string)
    ensures forall n :: n in Names(s) ==> Clean(n)
  {
    JoinSplit(s, ',');
    forall n | n in Names(s) ensures Clean(n) {
      var p :| p in Split(s, ',') && Strip(p) != "" && n == Strip(p);
      StripTrims(p);
    }
  }

  /** Published form and back: ",".join(sorted(ids)) names exactly ids if and only
      if every one of them is clean. */
  lemma PublishedNames(ids: set<string>)
    ensures Names(Join(Sorted(ids), ',')) == ids <==> forall id :: id in ids ==> Clean(id)
  {
    var parts := Sorted(ids);
    NamesAreClean(Join(parts, ','));
    if forall id :: id in ids ==> Clean(id) {
      if parts == [] {
        assert Split("", ',') == [""];
        assert Strip("") == "";
        assert Names("") == {};
        assert ids == {} by { if x :| x in ids { assert x in parts; } }
      } else {
        forall i | 0 <= i < |parts| ensures ',' !in parts[i] { assert parts[i] in ids; }
        SplitJoin(parts, ',');
        forall p | p in parts ensures Strip(p) == p && p != "" {
          assert p in ids;
          StripTrims(p);
        }
      }
    }
  }
}
