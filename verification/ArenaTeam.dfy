/** The team as an object with an array of slots, and the players' pointers to it. */
module ArenaObjects {
  import opened ArenaRoster

  class PlayerInfo {
    const id: PlayerId
    var arenaTeam: seq<ArenaTeam?>

    constructor (id: PlayerId)
      ensures arenaTeam == [null, null, null]
    {
      this.id, arenaTeam := id, [null, null, null];
    }
  }

  /** A slot: the player's record and the statistics that move with it. */
  datatype Member = Empty | Member(info: PlayerInfo, rating: nat, played: nat, won: nat)

  /** The players in a roster, in order. */
  ghost function Infos(roster: seq<Member>): seq<PlayerInfo>
    requires forall i :: 0 <= i < |roster| ==> roster[i].Member?
  {
    seq(|roster|, i requires 0 <= i < |roster| => roster[i].info)
  }

  class ArenaTeam {
    const id: TeamId
    const kind: Kind
    const members: array<Member>
    var memberCount: nat

    ghost predicate Valid()
      reads this, members
    {
      && memberCount <= members.Length == Slots(kind)
      && forall i :: 0 <= i < memberCount ==> members[i].Member?
    }

    ghost function Roster(): seq<Member>
      requires Valid()
      reads this, members
    {
      members[..memberCount]
    }

    constructor (id: TeamId, kind: Kind)
      ensures Valid() && Roster() == [] && fresh(members)
      ensures this.id == id && this.kind == kind
    {
      this.id, this.kind := id, kind;
      members := new Member[Slots(kind)](_ => Empty);
      memberCount := 0;
    }

    method AddMember(info: PlayerInfo) returns (ok: bool)
      requires Valid() && |info.arenaTeam| == 3
      modifies `memberCount, members, info
      ensures Valid() && ok == (|old(Roster())| < [4, 6, 10][kind])
      ensures Roster() == if ok then old(Roster()) + [Member(info, 1500, 0, 0)] else old(Roster())
      ensures info.arenaTeam == if ok then old(info.arenaTeam)[kind := this] else old(info.arenaTeam)
    {
      if memberCount >= members.Length { return false; }
      members[memberCount] := Member(info, 1500, 0, 0);
      memberCount := memberCount + 1;
      info.arenaTeam := info.arenaTeam[kind := this];
      return true;
    }

    /** The slots behind `i` move up by one. */
    method Shift(i: nat)
      requires Valid() && i < memberCount
      modifies `memberCount, members
      ensures Valid() && Roster() == old(Roster())[..i] + old(Roster())[i + 1..]
    {
      for j := i + 1 to memberCount
        invariant memberCount == old(memberCount)
        invariant forall k :: 0 <= k < i || j <= k < members.Length ==> members[k] == old(members[k])
        invariant forall k :: i <= k < j - 1 ==> members[k] == old(members[k + 1])
      {
        members[j - 1] := members[j];
      }
      memberCount := memberCount - 1;
      assert forall k :: 0 <= k < memberCount ==> members[k] == old(members[..])[if k < i then k else k + 1];
    }

    method RemoveMember(info: PlayerInfo) returns (ok: bool)
      requires Valid() && |info.arenaTeam| == 3
      modifies `memberCount, members, info
      ensures Valid() && ok == (info in old(Infos(Roster())))
      ensures Infos(Roster()) == if ok then RemoveFirst(old(Infos(Roster())), info) else old(Infos(Roster()))
      ensures ok ==> exists i :: 0 <= i < |old(Roster())| && Roster() == old(Roster())[..i] + old(Roster())[i + 1..]
      ensures !ok ==> Roster() == old(Roster())
      ensures info.arenaTeam == if ok then old(info.arenaTeam)[kind := null] else old(info.arenaTeam)
    {
      ghost var infos := Infos(Roster());
      for i := 0 to memberCount
        invariant Valid() && Roster() == old(Roster()) && memberCount == old(memberCount) && info.arenaTeam == old(info.arenaTeam)
        invariant forall j :: 0 <= j < i ==> infos[j] != info
      {
        if members[i].info == info {
          RemoveFirstShifts(infos, info, i);
          Shift(i);
          assert Infos(Roster()) == infos[..i] + infos[i + 1..];
          info.arenaTeam := info.arenaTeam[kind := null];
          return true;
        }
      }
      return false;
    }

    /** Everybody is removed, one after the other; afterwards no member points at the team. */
    method Destroy()
      requires Valid() && forall i :: 0 <= i < memberCount ==> |members[i].info.arenaTeam| == 3
      modifies `memberCount, members, set m | m in Infos(Roster())
      ensures Valid() && Roster() == []
      ensures forall info :: info in old(Infos(Roster())) ==> |info.arenaTeam| == 3 && info.arenaTeam[kind] == null
    {
      ghost var infos := Infos(Roster());
      var toKill: seq<PlayerInfo> := [];
      for i := 0 to memberCount
        invariant toKill == infos[..i]
      {
        toKill := toKill + [members[i].info];
      }
      for k := 0 to |toKill|
        invariant Valid() && Infos(Roster()) == infos[k..]
        invariant forall info :: info in infos ==> |info.arenaTeam| == 3
        invariant forall j :: 0 <= j < k ==> infos[j].arenaTeam[kind] == null
      {
        assert infos[k..][0] == toKill[k] && infos[k..][1..] == infos[k + 1..];
        var ok := RemoveMember(toKill[k]);
      }
    }
  }
}
