/** What each request does to a channel, told by its members' names and flags. */
module ChannelRequests {
  import opened Wrappers
  import opened Channels

  function Names(ms: seq<Member>): set<Player> { set m | m in ms :: m.player }

  lemma HasIs(ms: seq<Member>, p: Player)
    requires Sorted(ms)
    ensures Has(ms, p) <==> p in Names(ms)
    ensures forall m :: m in ms && m.player == p ==> FlagsOf(ms, p) == m.flags
  {
    if Has(ms, p) { assert ms[Find(ms, p)] in ms; }
    forall m | m in ms && m.player == p ensures Has(ms, p) && ms[Find(ms, p)] == m {
      var i :| 0 <= i < |ms| && ms[i] == m;
      assert Find(ms, p) == i;
    }
  }

  /** A member that is the owner or a moderator. */
  ghost predicate Ruling(ms: seq<Member>, p: Player) {
    exists m :: m in ms && m.player == p && (m.flags.owner || m.flags.moderator)
  }

  lemma RulesIs(ms: seq<Member>, p: Player)
    requires Sorted(ms)
    ensures Rules(ms, p) <==> Ruling(ms, p)
  {
    HasIs(ms, p);
    if Has(ms, p) { assert ms[Find(ms, p)] in ms; }
  }

  /** Joining is refused for a wrong password, a ban, or to whom is a member already; otherwise there
      is one member more, the owner if it is the first, and a moderator if it is a game master. */
  lemma JoinIs(c: Chat, p: Player, gm: bool, password: string)
    requires Sorted(c.members) && !c.removed
    ensures var r := Step(c, Join(p, gm, password));
            if (c.password != "" && password != c.password) || p in c.banned || p in Names(c.members) then r == c
            else
              && r == c.(members := r.members)
              && (forall m :: m in r.members <==>
                    m in c.members || m == Member(p, Flags(!c.general && |c.members| == 0, gm && !c.general, false, false)))
  {
    HasIs(c.members, p);
    InsertOwners(c.members, Member(p, Flags(c.members == [] && !c.general, !c.general && gm, false, false)));
    hide Insert, Find, Owners;
  }

  /** The others, whose names and flags stay, but for the owner's flag. */
  ghost predicate Remain(ms: seq<Member>, r: seq<Member>, gone: set<Player>) {
    && Names(r) == Names(ms) - gone
    && forall m, n :: m in ms && n in r && m.player == n.player ==> n.flags == m.flags.(owner := n.flags.owner)
  }

  lemma PlaceRemain(ms: seq<Member>, r: seq<Member>)
    requires Sorted(ms) && |r| == |ms| && forall i :: 0 <= i < |ms| ==> r[i] == Own(ms[i], r[i].flags.owner)
    ensures Sorted(r) && Remain(ms, r, {})
  {
    PlaceNames(ms, r);
    hide Names;
    forall m, n | m in ms && n in r && m.player == n.player ensures n.flags == m.flags.(owner := n.flags.owner) {
      var i :| 0 <= i < |ms| && ms[i] == m;
      var j :| 0 <= j < |r| && r[j] == n;
      assert i == j;
    }
  }

  lemma PlaceNames(ms: seq<Member>, r: seq<Member>)
    requires |r| == |ms| && forall i :: 0 <= i < |ms| ==> r[i].player == ms[i].player
    ensures Names(r) == Names(ms)
  {
    forall i | 0 <= i < |ms| ensures ms[i].player in Names(r) && r[i].player in Names(ms) { assert r[i] in r && ms[i] in ms; }
  }

  lemma ReassignRemain(ms: seq<Member>, target: Option<Player>)
    requires Sorted(ms)
    ensures Sorted(Reassign(ms, target, false)) && Remain(ms, Reassign(ms, target, false), {})
  {
    var r := Reassign(ms, target, false);
    ReassignKeeps(ms, target);
    forall i | 0 <= i < |ms| ensures r[i] == Own(ms[i], r[i].flags.owner) { ReassignShape(ms, target, false, i); }
    hide Reassign, Remain;
    PlaceRemain(ms, r);
  }

  lemma RemainTwice(ms: seq<Member>, left: seq<Member>, r: seq<Member>, gone: set<Player>)
    requires Remain(ms, left, gone) && Remain(left, r, {})
    ensures Remain(ms, r, gone)
  {
    forall m, n | m in ms && n in r && m.player == n.player ensures n.flags == m.flags.(owner := n.flags.owner) {
      assert n.player in Names(r) && n.player in Names(left);
      var x :| x in left && x.player == n.player;
    }
  }

  lemma WithoutMembers(ms: seq<Member>, i: nat)
    requires Sorted(ms) && i < |ms|
    ensures Sorted(Without(ms, i)) && forall m :: m in Without(ms, i) <==> m in ms && m.player != ms[i].player
  {
    var left := Without(ms, i);
    WithoutSorted(ms, i);
    forall m | m in ms && m.player != ms[i].player ensures m in left {
      var j :| 0 <= j < |ms| && ms[j] == m;
      assert left[if j < i then j else j - 1] == m;
    }
  }

  /** Those who are not `p`. */
  lemma OthersRemain(ms: seq<Member>, left: seq<Member>, p: Player)
    requires Sorted(ms) && forall m :: m in left <==> m in ms && m.player != p
    ensures Remain(ms, left, {p})
  {
    forall m, n | m in ms && n in left && m.player == n.player ensures m == n {
      Single(ms, m, n);
      hide Sorted;
    }
    hide Sorted;
  }

  lemma WithoutRemain(ms: seq<Member>, i: nat)
    requires Sorted(ms) && i < |ms|
    ensures Sorted(Without(ms, i)) && Remain(ms, Without(ms, i), {ms[i].player})
  {
    hide Sorted, Without, Remain;
    WithoutMembers(ms, i);
    OthersRemain(ms, Without(ms, i), ms[i].player);
  }

  lemma LeaveRemain(ms: seq<Member>, p: Player)
    requires Sorted(ms) && Has(ms, p)
    ensures Remain(ms, Leave(ms, p), {p})
  {
    var left := Without(ms, Find(ms, p));
    WithoutRemain(ms, Find(ms, p));
    ReassignRemain(left, None);
    hide Remain, Reassign, Without, Find;
    RemainTwice(ms, left, Reassign(left, None, false), {p});
  }

  lemma Single(ms: seq<Member>, m: Member, n: Member)
    requires Sorted(ms) && m in ms && n in ms && m.player == n.player
    ensures m == n
  {
    var i :| 0 <= i < |ms| && ms[i] == m;
    var j :| 0 <= j < |ms| && ms[j] == n;
  }

  /** Parting takes out the member and nobody else, and the channel goes with its last member. */
  lemma PartIs(c: Chat, p: Player)
    requires Sorted(c.members) && !c.removed
    ensures var r := Step(c, Part(p));
            if p !in Names(c.members) then r == c
            else Remain(c.members, r.members, {p}) && r == c.(members := r.members, removed := Names(c.members) == {p})
  {
    HasIs(c.members, p);
    if Has(c.members, p) {
      LeaveRemain(c.members, p);
      hide Leave, Find;
      var r := Leave(c.members, p);
      if r != [] { assert r[0].player in Names(r); }
    }
  }

  /** Kicking needs a ruling member and a member to kick, who is banned exactly if asked for. */
  lemma KickIs(c: Chat, p: Player, target: Player, ban: bool)
    requires Sorted(c.members) && !c.removed
    ensures var r := Step(c, Kick(p, target, ban));
            if !Ruling(c.members, p) || target !in Names(c.members) then r == c
            else
              && Remain(c.members, r.members, {target}) && r == c.(members := r.members, banned := r.banned)
              && (forall q :: q in r.banned <==> q in c.banned || (ban && q == target))
  {
    HasIs(c.members, target);
    RulesIs(c.members, p);
    if Has(c.members, target) { LeaveRemain(c.members, target); }
    hide Leave, Find, Rules;
  }

  /** A ruling member lifts a ban, if there is one. */
  lemma UnbanIs(c: Chat, p: Player, target: Player)
    requires Sorted(c.members) && !c.removed
    ensures var r := Step(c, Unban(p, target));
            && r == c.(banned := r.banned)
            && forall q :: q in r.banned <==> q in c.banned && !(q == target && Ruling(c.members, p))
  {
    RulesIs(c.members, p);
    hide Rules;
  }

  /** A ruling member sets one flag of one member: moderator, voice or mute, never the owner's. */
  lemma PowerIs(c: Chat, p: Player, target: Player, power: Power, on: bool)
    requires Sorted(c.members) && !c.removed
    ensures var r := Step(c, SetPower(p, target, power, on));
            && r == c.(members := r.members) && |r.members| == |c.members|
            && forall i :: 0 <= i < |c.members| ==>
                 var (m, n) := (c.members[i], r.members[i]);
                 var hit := Ruling(c.members, p) && m.player == target;
                 && n.player == m.player && n.flags.owner == m.flags.owner
                 && n.flags.moderator == (if hit && power.Moderating? then on else m.flags.moderator)
                 && n.flags.voiced == (if hit && power.Voicing? then on else m.flags.voiced)
                 && n.flags.muted == (if hit && power.Muting? then on else m.flags.muted)
  {
    HasIs(c.members, target);
    RulesIs(c.members, p);
    hide Rules;
    forall i | 0 <= i < |c.members| && c.members[i].player == target ensures Find(c.members, target) == i { assert c.members[i] in c.members; }
  }

  /** Only the owner hands over: afterwards the target is the owner if it is a member that was not, and
      nobody else is. */
  lemma HandOverIs(c: Chat, p: Player, target: Player)
    requires Inv(c) && !c.removed
    ensures var r := Step(c, SetOwner(p, target));
            if !(exists m :: m in c.members && m.player == p && m.flags.owner) then r == c
            else
              && r == c.(members := r.members) && Remain(c.members, r.members, {})
              && forall n :: n in r.members ==> (n.flags.owner <==> n.player == target && p != target)
  {
    HasIs(c.members, p);
    if Has(c.members, p) { assert c.members[Find(c.members, p)] in c.members; }
    if Has(c.members, p) && FlagsOf(c.members, p).owner {
      ReassignRemain(c.members, Some(target));
      var r := Reassign(c.members, Some(target), false);
      ReassignKeeps(c.members, Some(target));
      forall n | n in r ensures n.flags.owner <==> n.player == target && p != target {
        var i :| 0 <= i < |r| && r[i] == n;
        ReassignTo(c.members, target, false, i);
        assert c.members[i] in c.members;
        if c.members[i].flags.owner { OneOwnerOnly(c.members, i, Find(c.members, p)); }
        hide Reassign, Remain;
      }
      hide Reassign, Remain;
    }
  }

  lemma {:induction false} OneOwnerOnly(ms: seq<Member>, i: nat, j: nat)
    requires i < |ms| && j < |ms| && ms[i].flags.owner && ms[j].flags.owner && Owners(ms) <= 1
    ensures i == j
  {
    if i > 0 && j > 0 {
      OneOwnerOnly(ms[1..], i - 1, j - 1);
    } else if i != j {
      TwoOwners(ms, i + j);
    }
  }

  lemma {:induction false} ReassignTo(ms: seq<Member>, target: Player, taken: bool, i: nat)
    requires i < |ms|
    ensures var r := Reassign(ms, Some(target), taken);
            |r| == |ms| && r[i].player == ms[i].player && (r[i].flags.owner <==> ms[i].player == target && !ms[i].flags.owner)
  {
    ReassignShape(ms, Some(target), taken, i);
    if i > 0 {
      ReassignTo(ms[1..], target, taken, i - 1);
      ReassignTo(ms[1..], target, true, i - 1);
    }
  }
}
