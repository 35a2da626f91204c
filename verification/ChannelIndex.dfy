/** The two indices of the channel manager: a list of names for each team, and a map by id. */
module ChannelIndex {
  import opened Wrappers

  type ChannelId = nat

  type Team = t: nat | t < 2

  /** A channel, of which there is one for each id. */
  datatype Channel = Channel(name: string, team: Team, typeId: nat, id: ChannelId)

  datatype Entry = Entry(name: string, id: ChannelId)

  /** `separate` is the setting seperatechannels. */
  datatype Index = Index(
    separate: bool, banned: seq<string>, lists: seq<seq<Entry>>, ids: map<ChannelId, Channel>, idHigh: ChannelId)
  {
    predicate Shape() { |lists| == 2 }
  }

  function Lower(c: char): char { if 'A' <= c <= 'Z' then c - 'A' + 'a' else c }

  /** stricmp finds no difference. */
  predicate SameName(a: string, b: string) {
    |a| == |b| && forall i :: 0 <= i < |a| ==> Lower(a[i]) == Lower(b[i])
  }

  /** strnicmp finds no difference within the length of `b`. */
  predicate StartsLike(a: string, b: string) {
    |b| <= |a| && SameName(a[..|b|], b)
  }

  /** The position of a name in a list, or the length of the list. */
  function Find(list: seq<Entry>, name: string): (i: nat)
    ensures i <= |list| && (i < |list| ==> SameName(name, list[i].name))
    ensures forall j :: 0 <= j < i ==> !SameName(name, list[j].name)
  {
    if list == [] || SameName(name, list[0].name) then 0 else 1 + Find(list[1..], name)
  }

  function FindId(list: seq<Entry>, id: ChannelId): (i: nat)
    ensures i <= |list| && (i < |list| ==> list[i].id == id)
    ensures forall j :: 0 <= j < i ==> list[j].id != id
  {
    if list == [] || list[0].id == id then 0 else 1 + FindId(list[1..], id)
  }

  predicate Banned(banned: seq<string>, name: string) {
    exists i :: 0 <= i < |banned| && StartsLike(name, banned[i])
  }

  /** A map keyed by the exact name takes no second entry with it. */
  function Insert(list: seq<Entry>, e: Entry): seq<Entry> {
    if exists i :: 0 <= i < |list| && list[i].name == e.name then list else list + [e]
  }

  function ListOf(x: Index, team: Option<Team>): Team { if x.separate && team.Some? then team.value else 0 }

  function GetByName(x: Index, name: string, team: Team): Option<ChannelId>
    requires x.Shape()
  {
    var list := x.lists[if x.separate then team else 0];
    if Find(list, name) < |list| then Some(list[Find(list, name)].id) else None
  }

  function GetCreate(x: Index, name: string, team: Option<Team>, typeId: nat): (r: (Index, Option<ChannelId>))
    requires x.Shape()
    ensures r.0.Shape()
  {
    var t := ListOf(x, team);
    var i := Find(x.lists[t], name);
    if i < |x.lists[t]| then (x, Some(x.lists[t][i].id))
    else if Banned(x.banned, name) then (x, None)
    else
      var id := x.idHigh + 1;
      (x.(lists := x.lists[t := Insert(x.lists[t], Entry(name, id))], ids := x.ids[id := Channel(name, t, typeId, id)], idHigh := id),
       Some(id))
  }

  function Remove(x: Index, c: Channel): (r: Index)
    requires x.Shape()
    ensures r.Shape()
  {
    var t := if x.separate then c.team else 0;
    var i := FindId(x.lists[t], c.id);
    x.(ids := x.ids - {c.id},
       lists := if i < |x.lists[t]| then x.lists[t := x.lists[t][..i] + x.lists[t][i + 1..]] else x.lists)
  }

  // ---- Runs ------------------------------------------------------------------------------

  datatype Event = Create(name: string, team: Option<Team>, typeId: nat) | Drop(id: ChannelId)

  /** A channel that is still indexed is dropped when it empties. */
  function Step(x: Index, ev: Event): (r: Index)
    requires x.Shape()
    ensures r.Shape()
  {
    match ev
    case Create(name, team, typeId) => GetCreate(x, name, team, typeId).0
    case Drop(id) => if id in x.ids then Remove(x, x.ids[id]) else x
  }

  function Run(x: Index, evs: seq<Event>): (r: Index)
    requires x.Shape()
    ensures r.Shape()
    decreases |evs|
  {
    if evs == [] then x else Step(Run(x, evs[..|evs| - 1]), evs[|evs| - 1])
  }

  /** An entry of list `t` is the channel of its id, which belongs to that list. */
  ghost predicate EntryRight(x: Index, t: Team, e: Entry) {
    e.id in x.ids && x.ids[e.id].name == e.name && (x.separate ==> x.ids[e.id].team == t) && (!x.separate ==> t == 0)
  }

  /** A list holds no two names that differ by case only, and no id twice. */
  ghost predicate ListRight(list: seq<Entry>) {
    && (forall i, j :: 0 <= i < j < |list| ==> !SameName(list[i].name, list[j].name))
    && (forall i, j :: 0 <= i < j < |list| ==> list[i].id != list[j].id)
  }

  /** The channel `c` is in the list that its removal will search. */
  ghost predicate Indexed(x: Index, c: Channel)
    requires x.Shape()
  {
    Entry(c.name, c.id) in x.lists[if x.separate then c.team else 0]
  }

  ghost predicate Inv(x: Index) {
    && x.Shape()
    && (forall t: Team, i :: 0 <= i < |x.lists[t]| ==> EntryRight(x, t, x.lists[t][i]))
    && (forall t: Team :: ListRight(x.lists[t]))
    && (forall id :: id in x.ids ==> x.ids[id].id == id <= x.idHigh && Indexed(x, x.ids[id]))
  }

  lemma SameNameRefl(a: string)
    ensures SameName(a, a)
  {
  }

  lemma CreateKeeps(x: Index, name: string, team: Option<Team>, typeId: nat)
    requires Inv(x)
    ensures var (r, id) := GetCreate(x, name, team, typeId);
            && Inv(r) && r.separate == x.separate && x.idHigh <= r.idHigh
            && (id.None? <==> GetByName(x, name, ListOf(x, team)).None? && Banned(x.banned, name))
            && (id.Some? ==> GetByName(r, name, ListOf(x, team)) == id)
            && (id.Some? && r != x ==> id.value > x.idHigh)
  {
    hide EntryRight, ListRight, Indexed;
    var t := ListOf(x, team);
    var list := x.lists[t];
    var i := Find(list, name);
    if i == |list| && !Banned(x.banned, name) {
      var id := x.idHigh + 1;
      var e := Entry(name, id);
      var r := GetCreate(x, name, team, typeId).0;
      if k :| 0 <= k < |list| && list[k].name == name { SameNameRefl(name); }
      assert r.lists[t] == list + [e];
      hide Banned;
      FindNew(list, e);
      SameNameSwaps(list, name);
      hide Find, SameName;
      CreateEntries(x, r, t, e, typeId);
    }
  }

  lemma SameNameSwaps(list: seq<Entry>, name: string)
    requires Find(list, name) == |list|
    ensures forall j :: 0 <= j < |list| ==> !SameName(list[j].name, name)
  {
  }

  lemma {:induction false} FindNew(list: seq<Entry>, e: Entry)
    requires Find(list, e.name) == |list|
    ensures Find(list + [e], e.name) == |list|
  {
    SameNameRefl(e.name);
    if list != [] {
      assert (list + [e])[1..] == list[1..] + [e];
      FindNew(list[1..], e);
    }
  }

  lemma CreateEntries(x: Index, r: Index, t: Team, e: Entry, typeId: nat)
    requires Inv(x) && e.id == x.idHigh + 1 && (!x.separate ==> t == 0)
    requires forall j :: 0 <= j < |x.lists[t]| ==> !SameName(x.lists[t][j].name, e.name)
    requires r == x.(lists := x.lists[t := x.lists[t] + [e]], ids := x.ids[e.id := Channel(e.name, t, typeId, e.id)], idHigh := e.id)
    ensures Inv(r)
  {
    hide SameName, Find, ListRight, Indexed;
    assert forall u: Team :: ListRight(x.lists[u]);
    AddedRight(x.lists[t], e, x, t);
    forall u: Team ensures ListRight(r.lists[u]) { assert u != t ==> r.lists[u] == x.lists[u]; }
    forall u: Team, i | 0 <= i < |r.lists[u]| ensures EntryRight(r, u, r.lists[u][i]) {
      if u != t || i < |x.lists[t]| { assert EntryRight(x, u, x.lists[u][i]) && x.lists[u][i] == r.lists[u][i]; }
    }
    forall id | id in r.ids ensures r.ids[id].id == id <= r.idHigh && Indexed(r, r.ids[id]) { StillIndexed(x, r, t, e, typeId, id); }
  }

  lemma AddedRight(list: seq<Entry>, e: Entry, x: Index, t: Team)
    requires ListRight(list) && x.Shape() && list == x.lists[t]
    requires forall i :: 0 <= i < |x.lists[t]| ==> EntryRight(x, t, x.lists[t][i])
    requires forall id :: id in x.ids ==> id < e.id
    requires forall j :: 0 <= j < |list| ==> !SameName(list[j].name, e.name)
    ensures ListRight(list + [e])
  {
    hide SameName;
    forall i | 0 <= i < |list| ensures list[i].id < e.id { assert EntryRight(x, t, list[i]); }
  }

  lemma StillIndexed(x: Index, r: Index, t: Team, e: Entry, typeId: nat, id: ChannelId)
    requires Inv(x) && e.id == x.idHigh + 1 && id in r.ids && (!x.separate ==> t == 0)
    requires r == x.(lists := x.lists[t := x.lists[t] + [e]], ids := x.ids[e.id := Channel(e.name, t, typeId, e.id)], idHigh := e.id)
    ensures r.ids[id].id == id <= r.idHigh && Indexed(r, r.ids[id])
  {
    hide SameName, EntryRight, ListRight;
    if id == e.id {
      assert e in r.lists[t];
    } else {
      assert Indexed(x, x.ids[id]);
    }
  }

  function Without(list: seq<Entry>, i: nat): seq<Entry>
    requires i < |list|
  {
    list[..i] + list[i + 1..]
  }

  lemma WithoutRight(list: seq<Entry>, i: nat)
    requires i < |list| && ListRight(list)
    ensures ListRight(Without(list, i))
    ensures forall e :: e in Without(list, i) <==> e in list && e.id != list[i].id
  {
    hide SameName;
    var left := Without(list, i);
    assert forall j :: 0 <= j < |left| ==> left[j] == list[if j < i then j else j + 1];
    forall e | e in list && e.id != list[i].id ensures e in left {
      var k :| 0 <= k < |list| && list[k] == e;
      assert left[if k < i then k else k - 1] == e;
    }
  }

  lemma IdIsFound(list: seq<Entry>, id: ChannelId, e: Entry)
    requires e in list && e.id == id
    ensures FindId(list, id) < |list| && list[FindId(list, id)].id == id
  {
    var k :| 0 <= k < |list| && list[k] == e;
  }

  /** Where the removal finds the channel. */
  lemma RemoveFinds(x: Index, id: ChannelId)
    requires Inv(x) && id in x.ids
    ensures var t: Team := if x.separate then x.ids[id].team else 0;
            var i := FindId(x.lists[t], id);
            && x.ids[id].id == id && i < |x.lists[t]| && x.lists[t][i].id == id
            && Remove(x, x.ids[id]) == x.(ids := x.ids - {id}, lists := x.lists[t := Without(x.lists[t], i)])
  {
    hide EntryRight, ListRight, SameName, Find, FindId;
    IdIsFound(x.lists[if x.separate then x.ids[id].team else 0], id, Entry(x.ids[id].name, id));
  }

  lemma ListedRight(x: Index, u: Team, e: Entry)
    requires Inv(x) && e in x.lists[u]
    ensures EntryRight(x, u, e)
  {
    hide EntryRight, ListRight, Indexed;
    var k :| 0 <= k < |x.lists[u]| && x.lists[u][k] == e;
  }

  lemma StaysRight(x: Index, r: Index, u: Team, e: Entry, id: ChannelId)
    requires EntryRight(x, u, e) && e.id != id && r.ids == x.ids - {id} && r.separate == x.separate
    ensures EntryRight(r, u, e)
  {
  }

  lemma OtherList(x: Index, u: Team, e: Entry, id: ChannelId)
    requires EntryRight(x, u, e) && id in x.ids && u != if x.separate then x.ids[id].team else 0
    ensures e.id != id
  {
  }

  lemma RemoveEntries(x: Index, id: ChannelId, u: Team, e: Entry)
    requires Inv(x) && id in x.ids && e in Remove(x, x.ids[id]).lists[u]
    ensures EntryRight(Remove(x, x.ids[id]), u, e)
  {
    var t: Team := if x.separate then x.ids[id].team else 0;
    RemoveFinds(x, id);
    WithoutRight(x.lists[t], FindId(x.lists[t], id));
    hide SameName, Find, FindId, Without, Remove, ListRight, Indexed, EntryRight;
    ListedRight(x, u, e);
    if u != t { OtherList(x, u, e, id); }
    StaysRight(x, Remove(x, x.ids[id]), u, e, id);
  }

  lemma RemoveIds(x: Index, id: ChannelId, o: ChannelId)
    requires Inv(x) && id in x.ids && o in x.ids && o != id
    ensures Indexed(Remove(x, x.ids[id]), x.ids[o])
  {
    var t: Team := if x.separate then x.ids[id].team else 0;
    RemoveFinds(x, id);
    WithoutRight(x.lists[t], FindId(x.lists[t], id));
    hide SameName, Find, FindId, Remove, EntryRight, ListRight;
    assert Indexed(x, x.ids[o]) && x.ids[o].id == o;
  }

  lemma RemoveKeeps(x: Index, id: ChannelId)
    requires Inv(x) && id in x.ids
    ensures var r := Remove(x, x.ids[id]);
            && Inv(r) && r.separate == x.separate && r.idHigh == x.idHigh && r.ids == x.ids - {id}
  {
    var t: Team := if x.separate then x.ids[id].team else 0;
    var r := Remove(x, x.ids[id]);
    RemoveFinds(x, id);
    WithoutRight(x.lists[t], FindId(x.lists[t], id));
    hide SameName, Find, FindId, EntryRight, Indexed, ListRight;
    forall u: Team, j | 0 <= j < |r.lists[u]| ensures EntryRight(r, u, r.lists[u][j]) { RemoveEntries(x, id, u, r.lists[u][j]); }
    forall u: Team ensures ListRight(r.lists[u]) { }
    forall o | o in r.ids ensures r.ids[o].id == o <= r.idHigh && Indexed(r, r.ids[o]) { RemoveIds(x, id, o); }
  }

  /** Main theorem: in every run the name lists and the id map hold the same channels, each in the
      list its removal will search, and no list has two names that differ by case only. */
  lemma {:induction false} IndicesInEveryRun(x: Index, evs: seq<Event>)
    requires Inv(x)
    ensures Inv(Run(x, evs)) && Run(x, evs).separate == x.separate && x.idHigh <= Run(x, evs).idHigh
    decreases |evs|
  {
    if evs != [] {
      var y := Run(x, evs[..|evs| - 1]);
      IndicesInEveryRun(x, evs[..|evs| - 1]);
      match evs[|evs| - 1] {
        case Create(name, team, typeId) => CreateKeeps(y, name, team, typeId);
        case Drop(id) => if id in y.ids { RemoveKeeps(y, id); }
      }
    }
  }

  /** An id that has been dropped is never given out again. */
  lemma {:induction false} IdsNotReused(x: Index, evs: seq<Event>, id: ChannelId)
    requires Inv(x) && id <= x.idHigh && id !in x.ids
    ensures id !in Run(x, evs).ids
    decreases |evs|
  {
    if evs != [] {
      var y := Run(x, evs[..|evs| - 1]);
      IdsNotReused(x, evs[..|evs| - 1], id);
      IndicesInEveryRun(x, evs[..|evs| - 1]);
      match evs[|evs| - 1] {
        case Create(name, team, typeId) => CreateKeeps(y, name, team, typeId);
        case Drop(o) => if o in y.ids { RemoveKeeps(y, o); }
      }
    }
  }

  /** Looking a channel up by its id and its name again finds it, whatever the case of the name. */
  lemma RoundTrip(x: Index, id: ChannelId, name: string)
    requires Inv(x) && id in x.ids && SameName(name, x.ids[id].name)
    ensures GetByName(x, name, x.ids[id].team) == Some(id)
  {
    hide SameName, EntryRight, Find;
    var t: Team := if x.separate then x.ids[id].team else 0;
    assert Indexed(x, x.ids[id]) && ListRight(x.lists[t]);
    hide ListRight;
    NameIsFound(x.lists[t], name, Entry(x.ids[id].name, id));
  }

  /** In a list without two names alike the search by name finds the entry that is alike. */
  lemma NameIsFound(list: seq<Entry>, name: string, e: Entry)
    requires ListRight(list) && e in list && SameName(name, e.name)
    ensures Find(list, name) < |list| && list[Find(list, name)] == e
  {
    var k :| 0 <= k < |list| && list[k] == e;
    var i := Find(list, name);
    SameNameJoins(name, list[i].name, e.name);
    hide SameName;
  }

  lemma SameNameJoins(name: string, a: string, b: string)
    requires SameName(name, a) && SameName(name, b)
    ensures SameName(a, b)
  {
    forall i | 0 <= i < |a| ensures Lower(a[i]) == Lower(b[i]) {
      assert Lower(name[i]) == Lower(a[i]) && Lower(name[i]) == Lower(b[i]);
    }
  }

  /** What a look-up by name finds is in the map, under that name and for that team. */
  lemma FoundIsIndexed(x: Index, name: string, team: Team)
    requires Inv(x) && GetByName(x, name, team).Some?
    ensures var id := GetByName(x, name, team).value;
            id in x.ids && SameName(name, x.ids[id].name) && (x.separate ==> x.ids[id].team == team)
  {
    var t: Team := if x.separate then team else 0;
    var i := Find(x.lists[t], name);
    assert EntryRight(x, t, x.lists[t][i]);
  }
}
