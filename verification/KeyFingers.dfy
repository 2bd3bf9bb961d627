/** Reading key.finger answers: which fingerprint is attributed to which copy of a key,
    from sectioned and from flat answers, and why a reading is right or absent. */
module KeyFingers {
  import opened Options
  import opened KeyTrust

  /** A decoded answer; the fields of an object are in order, under distinct names. */
  datatype Json = Str(text: string) | Obj(fields: seq<Field>) | Arr(items: seq<Json>) | Atom

  datatype Field = Field(name: string, value: Json)

  /** {tab: {minion id: fingerprint}} */
  type Fingers = map<Tab, map<Id, string>>

  const TABS: seq<Tab> := [Accepted, Pending, Rejected, Denied]

  function SectionName(tab: Tab): string {
    match tab
    case Accepted => "minions"
    case Pending => "minions_pre"
    case Rejected => "minions_rejected"
    case Denied => "minions_denied"
  }

  predicate IsHex(c: char) {
    '0' <= c <= '9' || 'a' <= c <= 'f' || 'A' <= c <= 'F'
  }

  /** Every third place is a colon, the others hex digits. */
  predicate PlaceOk(s: string, i: nat)
    requires i < |s|
  {
    if i % 3 == 2 then s[i] == ':' else IsHex(s[i])
  }

  /** Two or more pairs of hex digits with colons between. */
  predicate ColonPairs(s: string) {
    |s| >= 5 && |s| % 3 == 2 && forall i :: 0 <= i < |s| ==> PlaceOk(s, i)
  }

  /** _FP_RE: its end anchor lets one final newline by. */
  predicate IsFinger(s: string) {
    ColonPairs(s) || (s != "" && s[|s| - 1] == '\n' && ColonPairs(s[..|s| - 1]))
  }

  /** Pairs of hex digits separated by colons, one pair at the least. */
  ghost predicate Pairs(s: string) {
    && |s| >= 2 && IsHex(s[0]) && IsHex(s[1])
    && (|s| == 2 || (s[2] == ':' && Pairs(s[3..])))
  }

  lemma {:induction false} PairsAre(s: string)
    ensures Pairs(s) <==> |s| % 3 == 2 && forall i :: 0 <= i < |s| ==> PlaceOk(s, i)
  {
    hide IsHex;
    if |s| >= 2 {
      assert PlaceOk(s, 0) <==> IsHex(s[0]);
      assert PlaceOk(s, 1) <==> IsHex(s[1]);
    }
    if |s| > 2 {
      var rest := s[3..];
      PairsAre(rest);
      assert PlaceOk(s, 2) <==> s[2] == ':';
      forall i | 0 <= i < |rest| ensures PlaceOk(rest, i) <==> PlaceOk(s, i + 3) {
        assert rest[i] == s[i + 3] && (i + 3) % 3 == i % 3;
      }
      forall i | 3 <= i < |s| ensures PlaceOk(s, i) <==> PlaceOk(rest, i - 3) {}
      hide PlaceOk;
      if Pairs(s) {
        forall i | 0 <= i < |s| ensures PlaceOk(s, i) { if i >= 3 { assert PlaceOk(rest, i - 3); } }
      } else if |s| % 3 == 2 && forall i :: 0 <= i < |s| ==> PlaceOk(s, i) {
        forall i | 0 <= i < |rest| ensures PlaceOk(rest, i) { assert PlaceOk(s, i + 3); }
      }
    }
  }

  lemma HexDigit(c: char)
    ensures IsHex(c) <==> c in "0123456789abcdefABCDEF"
  {
    var digits := "0123456789abcdefABCDEF";
    if '0' <= c <= '9' { assert digits[c as int - 48] == c; }
    if 'a' <= c <= 'f' { assert digits[c as int - 87] == c; }
    if 'A' <= c <= 'F' { assert digits[c as int - 49] == c; }
  }

  /** What is taken for a fingerprint: two or more such pairs, with or without a newline
      after them. */
  lemma FingerMeans(s: string)
    ensures IsFinger(s) <==> exists pairs :: Pairs(pairs) && |pairs| > 2 && (s == pairs || s == pairs + "\n")
  {
    PairsAre(s);
    if s != "" && s[|s| - 1] == '\n' {
      PairsAre(s[..|s| - 1]);
      assert s == s[..|s| - 1] + "\n";
    }
    if pairs :| Pairs(pairs) && |pairs| > 2 && (s == pairs || s == pairs + "\n") {
      PairsAre(pairs);
      assert (pairs + "\n")[..|pairs|] == pairs;
    }
  }

  predicate Fingerprint(v: Json) {
    v.Str? && IsFinger(v.text)
  }

  // ----------------------------------------------------------------------- the walk

  /** The flat reading: every fingerprint under its name, at any depth, later ones
      over earlier ones. */
  function Walked(node: Json, flat: map<string, string>): map<string, string>
    decreases node
  {
    match node
    case Obj(fields) => WalkedFields(fields, flat)
    case Arr(items) => WalkedItems(items, flat)
    case _ => flat
  }

  function WalkedFields(fields: seq<Field>, flat: map<string, string>): map<string, string>
    decreases fields
  {
    if fields == [] then flat
    else
      var before, last := WalkedFields(fields[..|fields| - 1], flat), fields[|fields| - 1];
      if Fingerprint(last.value) then before[last.name := last.value.text] else Walked(last.value, before)
  }

  function WalkedItems(items: seq<Json>, flat: map<string, string>): map<string, string>
    decreases items
  {
    if items == [] then flat
    else Walked(items[|items| - 1], WalkedItems(items[..|items| - 1], flat))
  }

  class Flat {
    var found: map<string, string>

    constructor ()
      ensures found == map[]
    {
      found := map[];
    }
  }

  /** walk, filling the shared dictionary. */
  method Walk(node: Json, flat: Flat)
    modifies flat
    ensures flat.found == Walked(node, old(flat.found))
    decreases node
  {
    hide IsFinger;
    match node {
      case Obj(fields) =>
        for k := 0 to |fields|
          invariant flat.found == WalkedFields(fields[..k], old(flat.found))
        {
          assert fields[..k + 1][..k] == fields[..k];
          if Fingerprint(fields[k].value) {
            flat.found := flat.found[fields[k].name := fields[k].value.text];
          } else {
            Walk(fields[k].value, flat);
          }
        }
        assert fields[..|fields|] == fields;
      case Arr(items) =>
        for k := 0 to |items|
          invariant flat.found == WalkedItems(items[..k], old(flat.found))
        {
          assert items[..k + 1][..k] == items[..k];
          Walk(items[k], flat);
        }
        assert items[..|items|] == items;
      case _ =>
    }
  }

  /** Somewhere in the node, name carries the fingerprint f. */
  ghost predicate Says(node: Json, name: string, f: string)
    decreases node
  {
    match node
    case Obj(fields) => SaysFields(fields, name, f)
    case Arr(items) => SaysItems(items, name, f)
    case _ => false
  }

  ghost predicate SaysFields(fields: seq<Field>, name: string, f: string)
    decreases fields
  {
    exists i :: 0 <= i < |fields| && FieldSays(fields[i], name, f)
  }

  ghost predicate SaysItems(items: seq<Json>, name: string, f: string)
    decreases items
  {
    exists i :: 0 <= i < |items| && Says(items[i], name, f)
  }

  ghost predicate FieldSays(field: Field, name: string, f: string)
    decreases field
  {
    if Fingerprint(field.value) then field == Field(name, Str(f)) else Says(field.value, name, f)
  }

  /** The walk finds exactly the names the node says something of, and what it finds is
      said. */
  lemma {:induction false} WalkFinds(node: Json, flat: map<string, string>, name: string)
    ensures var after := Walked(node, flat);
            && (name in flat ==> name in after)
            && (forall f :: Says(node, name, f) ==> name in after)
            && (name in after ==> (name in flat && after[name] == flat[name]) || Says(node, name, after[name]))
    decreases node
  {
    match node
    case Obj(fields) =>
      FieldsFind(fields, flat, name);
      forall f ensures Says(node, name, f) <==> SaysFields(fields, name, f) {}
    case Arr(items) =>
      ItemsFind(items, flat, name);
      forall f ensures Says(node, name, f) <==> SaysItems(items, name, f) {}
    case _ =>
  }

  lemma {:induction false} FieldsFind(fields: seq<Field>, flat: map<string, string>, name: string)
    ensures var after := WalkedFields(fields, flat);
            && (name in flat ==> name in after)
            && (forall f :: SaysFields(fields, name, f) ==> name in after)
            && (name in after ==> (name in flat && after[name] == flat[name]) || SaysFields(fields, name, after[name]))
    decreases fields
  {
    hide Says, IsFinger;
    if fields != [] {
      var n := |fields| - 1;
      var front, last := fields[..n], fields[n];
      FieldsFind(front, flat, name);
      forall f ensures SaysFields(fields, name, f) <==> SaysFields(front, name, f) || FieldSays(last, name, f) {
        FieldsSay(fields, name, f);
      }
      if !Fingerprint(last.value) {
        WalkFinds(last.value, WalkedFields(front, flat), name);
        forall f ensures FieldSays(last, name, f) <==> Says(last.value, name, f) {}
      } else {
        assert FieldSays(last, last.name, last.value.text);
      }
    }
  }

  lemma FieldsSay(fields: seq<Field>, name: string, f: string)
    requires fields != []
    ensures SaysFields(fields, name, f) <==>
              SaysFields(fields[..|fields| - 1], name, f) || FieldSays(fields[|fields| - 1], name, f)
  {
    hide FieldSays;
    var front := fields[..|fields| - 1];
    if i :| 0 <= i < |front| && FieldSays(front[i], name, f) { assert fields[i] == front[i]; }
    if i :| 0 <= i < |fields| && FieldSays(fields[i], name, f) { assert i < |front| ==> fields[i] == front[i]; }
  }

  lemma {:induction false} ItemsFind(items: seq<Json>, flat: map<string, string>, name: string)
    ensures var after := WalkedItems(items, flat);
            && (name in flat ==> name in after)
            && (forall f :: SaysItems(items, name, f) ==> name in after)
            && (name in after ==> (name in flat && after[name] == flat[name]) || SaysItems(items, name, after[name]))
    decreases items
  {
    hide Says;
    if items != [] {
      var n := |items| - 1;
      var front, last := items[..n], items[n];
      ItemsFind(front, flat, name);
      forall f ensures SaysItems(items, name, f) <==> SaysItems(front, name, f) || Says(last, name, f) {
        ItemsSay(items, name, f);
      }
      WalkFinds(last, WalkedItems(front, flat), name);
    }
  }

  lemma ItemsSay(items: seq<Json>, name: string, f: string)
    requires items != []
    ensures SaysItems(items, name, f) <==>
              SaysItems(items[..|items| - 1], name, f) || Says(items[|items| - 1], name, f)
  {
    hide Says;
    var front := items[..|items| - 1];
    if i :| 0 <= i < |front| && Says(front[i], name, f) { assert items[i] == front[i]; }
    if i :| 0 <= i < |items| && Says(items[i], name, f) { assert i < |front| ==> items[i] == front[i]; }
  }

  // -------------------------------------------------------------------- attribution

  /** node.get(name) */
  function Get(fields: seq<Field>, name: string): Json {
    if fields == [] then Atom
    else if fields[|fields| - 1].name == name then fields[|fields| - 1].value
    else Get(fields[..|fields| - 1], name)
  }

  /** The answer is keyed by status: some section is a nonempty object. */
  predicate Sectioned(fields: seq<Field>) {
    exists tab: Tab :: var s := Get(fields, SectionName(tab)); s.Obj? && s.fields != []
  }

  /** The fingerprints directly in one section. */
  function SectionFingers(fields: seq<Field>): map<Id, string> {
    if fields == [] then map[]
    else
      var before, last := SectionFingers(fields[..|fields| - 1]), fields[|fields| - 1];
      if Fingerprint(last.value) then before[last.name := last.value.text] else before
  }

  function SectionOf(fields: seq<Field>, tab: Tab): map<Id, string> {
    var s := Get(fields, SectionName(tab));
    if s.Obj? then SectionFingers(s.fields) else map[]
  }

  predicate Listed(listed: map<Tab, set<Id>>, tab: Tab, id: Id) {
    tab in listed && id in listed[tab]
  }

  /** id sits in this status and in no other. */
  predicate OnlyIn(listed: map<Tab, set<Id>>, tab: Tab, id: Id) {
    Listed(listed, tab, id) && forall other :: Listed(listed, other, id) ==> other == tab
  }

  function FlatFingers(flat: map<string, string>, listed: map<Tab, set<Id>>, tab: Tab): map<Id, string> {
    map id | id in (if tab in listed then listed[tab] else {}) && OnlyIn(listed, tab, id) && id in flat :: flat[id]
  }

  /** _attribute_fingerprints */
  function Attributed(node: Json, listed: map<Tab, set<Id>>, tab: Tab): map<Id, string> {
    if !node.Obj? then map[]
    else if Sectioned(node.fields) then SectionOf(node.fields, tab)
    else FlatFingers(Walked(node, map[]), listed, tab)
  }

  /** The keys one pod holds, by status and id. */
  type Held = map<(Tab, Id), Key>

  /** key.list_all told what the pod holds. */
  ghost predicate ListsHeld(listed: map<Tab, set<Id>>, held: Held) {
    forall tab, id :: Listed(listed, tab, id) <==> (tab, id) in held
  }

  /** Field i of the answer is the section of the status, and its entry k gives id the
      fingerprint f. */
  predicate SectionEntry(fields: seq<Field>, i: nat, k: nat, tab: Tab, id: Id, f: string) {
    && i < |fields| && fields[i].name == SectionName(tab) && fields[i].value.Obj?
    && k < |fields[i].value.fields| && fields[i].value.fields[k] == Field(id, Str(f)) && IsFinger(f)
  }

  /** key.finger told the truth of the keys held: sectioned, every entry of a section
      gives the fingerprint of that status' key; flat, whatever is said of an id is the
      fingerprint of one of its keys. */
  ghost predicate Truthful(node: Json, held: Held) {
    node.Obj? ==>
      if Sectioned(node.fields) then
        forall i, k, tab, id, f :: (tab, id) in held && SectionEntry(node.fields, i, k, tab, id, f) ==>
          held[(tab, id)].finger == f
      else
        forall tab, id, f :: (tab, id) in held && Says(node, id, f) ==>
          exists other :: (other, id) in held && held[(other, id)].finger == f
  }

  lemma {:induction false} GetIsThere(fields: seq<Field>, name: string) returns (i: nat)
    requires !Get(fields, name).Atom?
    ensures i < |fields| && fields[i] == Field(name, Get(fields, name))
  {
    var n := |fields| - 1;
    if fields[n].name == name { return n; }
    i := GetIsThere(fields[..n], name);
  }

  lemma {:induction false} EntryIsThere(fields: seq<Field>, id: Id) returns (k: nat)
    requires id in SectionFingers(fields)
    ensures IsFinger(SectionFingers(fields)[id])
    ensures k < |fields| && fields[k] == Field(id, Str(SectionFingers(fields)[id]))
  {
    hide IsFinger;
    var n := |fields| - 1;
    if fields[n].name == id && Fingerprint(fields[n].value) { return n; }
    k := EntryIsThere(fields[..n], id);
  }

  /** What a section attributes stands in an entry of that section. */
  lemma SectionSaysSo(fields: seq<Field>, tab: Tab, id: Id) returns (i: nat, k: nat)
    requires id in SectionOf(fields, tab)
    ensures SectionEntry(fields, i, k, tab, id, SectionOf(fields, tab)[id])
  {
    hide IsFinger, Get, SectionFingers;
    i := GetIsThere(fields, SectionName(tab));
    k := EntryIsThere(fields[i].value.fields, id);
  }

  /** Fail closed: from a truthful answer, what is attributed to a key is its own
      fingerprint, though the same id sits in several states on the pod. */
  lemma AttributionIsExact(node: Json, listed: map<Tab, set<Id>>, held: Held, tab: Tab, id: Id)
    requires ListsHeld(listed, held) && Truthful(node, held)
    requires (tab, id) in held && id in Attributed(node, listed, tab)
    ensures Attributed(node, listed, tab)[id] == held[(tab, id)].finger
  {
    hide Says, Walked, SectionOf;
    if Sectioned(node.fields) {
      var i, k := SectionSaysSo(node.fields, tab, id);
    } else {
      WalkFinds(node, map[], id);
      var f := Walked(node, map[])[id];
      var other :| (other, id) in held && held[(other, id)].finger == f;
      assert Listed(listed, other, id);
    }
  }

  /** From an answer without a nonempty section a key is given a fingerprint exactly
      when its id sits in that state alone and the answer says one of it, anywhere; what
      it is given is said. */
  lemma FlatAttribution(node: Json, listed: map<Tab, set<Id>>, tab: Tab, id: Id)
    requires node.Obj?
    requires forall i :: 0 <= i < |node.fields|
                         && node.fields[i].name in {"minions", "minions_pre", "minions_rejected", "minions_denied"} ==>
               !node.fields[i].value.Obj? || node.fields[i].value.fields == []
    ensures id in Attributed(node, listed, tab) <==> OnlyIn(listed, tab, id) && exists f :: Says(node, id, f)
    ensures id in Attributed(node, listed, tab) ==> Says(node, id, Attributed(node, listed, tab)[id])
  {
    hide Says, Walked, Get;
    WalkFinds(node, map[], id);
    if Sectioned(node.fields) {
      var other: Tab :| Get(node.fields, SectionName(other)).Obj? && Get(node.fields, SectionName(other)).fields != [];
      var i := GetIsThere(node.fields, SectionName(other));
      assert false;
    }
  }

  ghost predicate DistinctNames(fields: seq<Field>) {
    forall i, j :: 0 <= i < j < |fields| ==> fields[i].name != fields[j].name
  }

  lemma {:induction false} GetFinds(fields: seq<Field>, i: nat)
    requires DistinctNames(fields) && i < |fields|
    ensures Get(fields, fields[i].name) == fields[i].value
  {
    var n := |fields| - 1;
    if i < n {
      assert fields[..n][i] == fields[i];
      GetFinds(fields[..n], i);
    }
  }

  lemma {:induction false} SectionFingersAre(fields: seq<Field>, i: nat)
    requires DistinctNames(fields) && i < |fields|
    ensures fields[i].name in SectionFingers(fields) <==> Fingerprint(fields[i].value)
    ensures Fingerprint(fields[i].value) ==> SectionFingers(fields)[fields[i].name] == fields[i].value.text
  {
    hide IsFinger;
    var n := |fields| - 1;
    if i < n {
      assert fields[..n][i] == fields[i];
      SectionFingersAre(fields[..n], i);
    } else {
      NotYet(fields[..n], fields[n].name);
    }
  }

  lemma {:induction false} NotYet(fields: seq<Field>, name: string)
    requires forall i :: 0 <= i < |fields| ==> fields[i].name != name
    ensures name !in SectionFingers(fields)
  {
    hide IsFinger;
    if fields != [] { NotYet(fields[..|fields| - 1], name); }
  }

  /** From a sectioned answer a key is given what the entry of its id in the section of
      its state says, only when that is a fingerprint, and nothing without an entry. */
  lemma SectionAttribution(fields: seq<Field>, listed: map<Tab, set<Id>>, tab: Tab, i: nat, k: nat)
    requires DistinctNames(fields) && i < |fields|
    requires (tab, fields[i].name) in {(Accepted, "minions"), (Pending, "minions_pre"), (Rejected, "minions_rejected"),
                                       (Denied, "minions_denied")}
    requires fields[i].value.Obj? && DistinctNames(fields[i].value.fields) && k < |fields[i].value.fields|
    ensures var entry := fields[i].value.fields[k];
            var out := Attributed(Obj(fields), listed, tab);
            && (entry.name in out <==> Fingerprint(entry.value))
            && (Fingerprint(entry.value) ==> out[entry.name] == entry.value.text)
            && forall id :: id in out ==>
                 exists j :: 0 <= j < |fields[i].value.fields| && fields[i].value.fields[j].name == id
  {
    hide IsFinger, Get, SectionFingers;
    assert fields[i].name == SectionName(tab);
    GetFinds(fields, i);
    assert Sectioned(fields);
    SectionFingersAre(fields[i].value.fields, k);
    forall id | id in SectionFingers(fields[i].value.fields)
      ensures exists j :: 0 <= j < |fields[i].value.fields| && fields[i].value.fields[j].name == id
    {
      var j := EntryIsThere(fields[i].value.fields, id);
    }
  }

  /** So, on a pod with one state for each id, a reading is what key trust takes it to
      be: the copy's own fingerprint, or none. */
  lemma ReadingIsSeen(node: Json, listed: map<Tab, set<Id>>, pod: map<Id, Copy>, id: Id)
    requires id in pod
    requires ListsHeld(listed, HeldBy(pod)) && Truthful(node, HeldBy(pod))
    ensures var fingers := Attributed(node, listed, pod[id].tab);
            (if id in fingers then Some(fingers[id]) else None) == SeenOf(pod[id], id in fingers).finger
  {
    hide Attributed, Truthful;
    var tab := pod[id].tab;
    assert (tab, id) in HeldBy(pod);
    if id in Attributed(node, listed, tab) { AttributionIsExact(node, listed, HeldBy(pod), tab, id); }
  }

  function HeldBy(pod: map<Id, Copy>): Held {
    map id | id in pod :: (pod[id].tab, id) := pod[id].key
  }

  // ------------------------------------------------------------------------- methods

  /** How many of the first n statuses list id. */
  function Count(listed: map<Tab, set<Id>>, id: Id, n: nat): nat
    requires n <= |TABS|
  {
    if n == 0 then 0 else Count(listed, id, n - 1) + if Listed(listed, TABS[n - 1], id) then 1 else 0
  }

  lemma CountIsOne(listed: map<Tab, set<Id>>, tab: Tab, id: Id)
    requires Listed(listed, tab, id)
    ensures Count(listed, id, 4) == 1 <==> OnlyIn(listed, tab, id)
  {
    assert TABS[0] == Accepted && TABS[1] == Pending && TABS[2] == Rejected && TABS[3] == Denied;
    assert Count(listed, id, 1) == Count(listed, id, 0) + if Listed(listed, Accepted, id) then 1 else 0;
    assert Count(listed, id, 2) == Count(listed, id, 1) + if Listed(listed, Pending, id) then 1 else 0;
    assert Count(listed, id, 3) == Count(listed, id, 2) + if Listed(listed, Rejected, id) then 1 else 0;
    assert Count(listed, id, 4) == Count(listed, id, 3) + if Listed(listed, Denied, id) then 1 else 0;
  }

  function At(counts: map<Id, nat>, id: Id): nat {
    if id in counts then counts[id] else 0
  }

  /** The counting loops. */
  method CountStates(listed: map<Tab, set<Id>>) returns (counts: map<Id, nat>)
    ensures forall id :: At(counts, id) == Count(listed, id, 4)
  {
    counts := map[];
    for k := 0 to |TABS|
      invariant forall id :: At(counts, id) == Count(listed, id, k)
    {
      var ids := if TABS[k] in listed then listed[TABS[k]] else {};
      var todo := ids;
      while todo != {}
        invariant todo <= ids
        invariant forall id :: At(counts, id) == Count(listed, id, k) + if id in ids && id !in todo then 1 else 0
      {
        var mid :| mid in todo;
        counts := counts[mid := At(counts, mid) + 1];
        todo := todo - {mid};
      }
      assert forall id :: id in ids <==> Listed(listed, TABS[k], id);
    }
  }

  /** The flat attribution of one status. */
  method PickFlat(flat: map<string, string>, listed: map<Tab, set<Id>>, counts: map<Id, nat>, tab: Tab)
    returns (out: map<Id, string>)
    requires forall id :: At(counts, id) == Count(listed, id, 4)
    ensures out == FlatFingers(flat, listed, tab)
  {
    hide Count;
    out := map[];
    var ids := if tab in listed then listed[tab] else {};
    var todo := ids;
    while todo != {}
      invariant todo <= ids
      invariant out.Keys <= ids - todo
      invariant forall id :: id in ids && id !in todo ==> (id in out <==> id in FlatFingers(flat, listed, tab))
      invariant forall id :: id in out ==> id in FlatFingers(flat, listed, tab) && out[id] == flat[id]
    {
      var mid :| mid in todo;
      CountIsOne(listed, tab, mid);
      if At(counts, mid) == 1 && mid in flat { out := out[mid := flat[mid]]; }
      todo := todo - {mid};
    }
  }

  /** One section's loop. */
  method ReadSection(fields: seq<Field>) returns (out: map<Id, string>)
    ensures out == SectionFingers(fields)
  {
    hide IsFinger;
    out := map[];
    for k := 0 to |fields|
      invariant out == SectionFingers(fields[..k])
    {
      assert fields[..k + 1][..k] == fields[..k];
      if Fingerprint(fields[k].value) { out := out[fields[k].name := fields[k].value.text]; }
    }
    assert fields[..|fields|] == fields;
  }

  /** _attribute_fingerprints, for an answer that is not an object too. */
  method AttributeFingerprints(node: Json, listed: map<Tab, set<Id>>) returns (out: Fingers)
    ensures forall tab :: tab in out && out[tab] == Attributed(node, listed, tab)
  {
    hide SectionFingers, Walked, Count, FlatFingers, Sectioned, Get;
    EveryTab();
    if !node.Obj? {
      out := map[Accepted := map[], Pending := map[], Rejected := map[], Denied := map[]];
      forall tab: Tab ensures tab in out && out[tab] == map[] {
        match tab case Accepted => case Pending => case Rejected => case Denied =>
      }
      return;
    }
    out := map[];
    if Sectioned(node.fields) {
      for k := 0 to |TABS|
        invariant forall j :: 0 <= j < k ==> TABS[j] in out && out[TABS[j]] == Attributed(node, listed, TABS[j])
      {
        var section := Get(node.fields, SectionName(TABS[k]));
        var fingers := map[];
        if section.Obj? { fingers := ReadSection(section.fields); }
        out := out[TABS[k] := fingers];
      }
    } else {
      var flat := new Flat();
      Walk(node, flat);
      var found := flat.found;
      var counts := CountStates(listed);
      for k := 0 to |TABS|
        invariant forall j :: 0 <= j < k ==> TABS[j] in out && out[TABS[j]] == Attributed(node, listed, TABS[j])
      {
        var fingers := PickFlat(found, listed, counts, TABS[k]);
        out := out[TABS[k] := fingers];
      }
    }
    forall tab ensures tab in out && out[tab] == Attributed(node, listed, tab) {
      EveryTab();
      assert tab in TABS;
    }
  }

  lemma EveryTab()
    ensures forall tab: Tab :: tab in TABS
    ensures forall i, j :: 0 <= i < j < |TABS| ==> TABS[i] != TABS[j]
  {
    assert TABS[0] == Accepted && TABS[1] == Pending && TABS[2] == Rejected && TABS[3] == Denied;
    forall tab: Tab ensures tab in TABS {
      match tab case Accepted => case Pending => case Rejected => case Denied =>
    }
  }
}
