/** Names that differ by case only, banned beginnings, and what a look-up that may create does. */
module ChannelNames {
  import opened Wrappers
  import opened ChannelIndex

  /** The same character, or the other case of a Latin letter. */
  predicate Alike(c: char, d: char) {
    c == d || ('A' <= c <= 'Z' && d as int == c as int + 32) || ('A' <= d <= 'Z' && c as int == d as int + 32)
  }

  lemma LowerAlike(c: char, d: char)
    ensures Lower(c) == Lower(d) <==> Alike(c, d)
  {
  }

  lemma SameNameIff(a: string, b: string)
    ensures SameName(a, b) <==> |a| == |b| && forall i :: 0 <= i < |a| ==> Alike(a[i], b[i])
  {
    if |a| == |b| {
      forall i | 0 <= i < |a| ensures Lower(a[i]) == Lower(b[i]) <==> Alike(a[i], b[i]) { LowerAlike(a[i], b[i]); }
      hide Lower, Alike;
    }
  }

  /** A name is banned if it begins like one of the banned words, in whatever case. */
  lemma BannedIff(banned: seq<string>, name: string)
    ensures Banned(banned, name) <==>
      exists k :: 0 <= k < |banned| && |banned[k]| <= |name| && forall i :: 0 <= i < |banned[k]| ==> Alike(name[i], banned[k][i])
  {
    forall k | 0 <= k < |banned|
      ensures StartsLike(name, banned[k]) <==> |banned[k]| <= |name| && forall i :: 0 <= i < |banned[k]| ==> Alike(name[i], banned[k][i])
    {
      if |banned[k]| <= |name| {
        SameNameIff(name[..|banned[k]|], banned[k]);
        assert forall i :: 0 <= i < |banned[k]| ==> name[..|banned[k]|][i] == name[i];
        hide SameName, Alike;
      }
    }
    hide StartsLike, Alike;
  }

  /** The list of the player's team if teams are kept apart, and one list otherwise: a name that is
      there leads to its channel, a banned one that is not to none, and any other to a new channel
      under the next id, in that list and in the map. */
  lemma GetCreateIs(x: Index, name: string, team: Option<Team>, typeId: nat)
    requires Inv(x)
    ensures var (r, id) := GetCreate(x, name, team, typeId);
            var t: Team := if x.separate && team.Some? then team.value else 0;
            var next := x.idHigh + 1;
            if exists e :: e in x.lists[t] && SameName(name, e.name) then
              r == x && id.Some? && exists e :: e in x.lists[t] && SameName(name, e.name) && e.id == id.value
            else if Banned(x.banned, name) then r == x && id == None
            else
              && id == Some(next) && r.idHigh == next && r.separate == x.separate && r.banned == x.banned
              && r.lists == x.lists[t := x.lists[t] + [Entry(name, next)]]
              && r.ids == x.ids[next := Channel(name, t, typeId, next)]
  {
    var t: Team := if x.separate && team.Some? then team.value else 0;
    var list := x.lists[t];
    var i := Find(list, name);
    if i < |list| {
      assert list[i] in list;
    } else {
      if k :| 0 <= k < |list| && list[k].name == name { SameNameRefl(name); }
      forall e | e in list ensures !SameName(name, e.name) { var k :| 0 <= k < |list| && list[k] == e; }
    }
    hide SameName, Banned, Find, EntryRight, ListRight, Indexed;
  }
}
