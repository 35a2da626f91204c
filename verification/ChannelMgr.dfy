/** The channel manager as an object that searches and changes its two indices. */
module ChannelMgrObjects {
  import opened Wrappers
  import opened ChannelIndex
  import CI = ChannelIndex

  class ChannelMgr {
    const separate: bool
    const banned: seq<string>
    var lists: seq<seq<Entry>>
    var ids: map<ChannelId, Channel>
    var idHigh: ChannelId

    ghost function View(): Index
      reads this
    {
      Index(separate, banned, lists, ids, idHigh)
    }

    constructor (separate: bool, banned: seq<string>)
      ensures Inv(View()) && View() == Index(separate, banned, [[], []], map[], 0)
    {
      this.separate, this.banned := separate, banned;
      lists, ids, idHigh := [[], []], map[], 0;
    }

    method Search(t: Team, name: string) returns (i: nat)
      requires |lists| == 2
      ensures i == CI.Find(lists[t], name)
    {
      i := 0;
      while i < |lists[t]| && !SameName(name, lists[t][i].name)
        invariant i <= |lists[t]| && CI.Find(lists[t], name) == i + CI.Find(lists[t][i..], name)
        decreases |lists[t]| - i
      {
        assert lists[t][i..][1..] == lists[t][i + 1..];
        i := i + 1;
      }
    }

    method IsBanned(name: string) returns (hit: bool)
      ensures hit == CI.Banned(banned, name)
    {
      for i := 0 to |banned|
        invariant forall j :: 0 <= j < i ==> !StartsLike(name, banned[j])
      {
        if StartsLike(name, banned[i]) { return true; }
      }
      return false;
    }

    method GetCreateChannel(name: string, team: Option<Team>, typeId: nat) returns (id: Option<ChannelId>)
      requires Inv(View())
      modifies this
      ensures Inv(View()) && (View(), id) == GetCreate(old(View()), name, team, typeId)
    {
      StillRight(View(), name, team, typeId);
      hide Inv, CI.Find, CI.Banned, CI.Insert, SameName, StartsLike;
      var t: Team := if separate && team.Some? then team.value else 0;
      var i := Search(t, name);
      if i < |lists[t]| { return Some(lists[t][i].id); }
      var hit := IsBanned(name);
      if hit { return None; }
      NewChannel(t, name, typeId);
      id := Some(idHigh);
    }

    lemma StillRight(x: Index, name: string, team: Option<Team>, typeId: nat)
      requires Inv(x)
      ensures x.Shape() && Inv(GetCreate(x, name, team, typeId).0)
    {
      CreateKeeps(x, name, team, typeId);
    }

    /** A channel of the next id enters both indices. */
    method NewChannel(t: Team, name: string, typeId: nat)
      requires |lists| == 2
      modifies this
      ensures var high := old(idHigh) + 1;
              View() == old(View()).(lists := old(lists)[t := CI.Insert(old(lists)[t], Entry(name, high))],
                                     ids := old(ids)[high := CI.Channel(name, t, typeId, high)], idHigh := high)
    {
      idHigh := idHigh + 1;
      lists := lists[t := CI.Insert(lists[t], Entry(name, idHigh))];
      ids := ids[idHigh := CI.Channel(name, t, typeId, idHigh)];
    }

    method GetChannel(name: string, team: Team) returns (id: Option<ChannelId>)
      requires Inv(View())
      ensures id == GetByName(View(), name, team)
    {
      var t: Team := if separate then team else 0;
      var i := Search(t, name);
      id := if i < |lists[t]| then Some(lists[t][i].id) else None;
    }

    method RemoveChannel(c: Channel)
      requires Inv(View()) && c.id in ids && ids[c.id] == c
      modifies this
      ensures Inv(View()) && View() == Remove(old(View()), c)
    {
      RemoveKeeps(View(), c.id);
      RemoveFinds(View(), c.id);
      hide Inv, Remove, FindId, CI.Without;
      var t: Team := if separate then c.team else 0;
      ids := ids - {c.id};
      var i := SearchId(t, c.id);
      if i < |lists[t]| {
        lists := lists[t := CI.Without(lists[t], i)];
      }
    }

    method SearchId(t: Team, id: ChannelId) returns (i: nat)
      requires |lists| == 2
      ensures i == FindId(lists[t], id)
    {
      i := 0;
      while i < |lists[t]| && lists[t][i].id != id
        invariant i <= |lists[t]| && FindId(lists[t], id) == i + FindId(lists[t][i..], id)
        decreases |lists[t]| - i
      {
        assert lists[t][i..][1..] == lists[t][i + 1..];
        i := i + 1;
      }
    }
  }
}
