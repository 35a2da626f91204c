/** A chat channel: its members and their flags, its owner, and those banned from it. */
module Channels {
  import opened Wrappers

  /** A player of the cluster; there is one record for each guid. */
  type Player = nat

  datatype Flags = Flags(owner: bool, moderator: bool, voiced: bool, muted: bool)

  datatype Member = Member(player: Player, flags: Flags)

  /** The members are in the order of the map that holds them. */
  datatype Chat = Chat(
    general: bool, password: string, muted: bool, announce: bool, members: seq<Member>, banned: set<Player>, removed: bool)

  function Find(ms: seq<Member>, p: Player): (i: nat)
    ensures i <= |ms| && (i < |ms| ==> ms[i].player == p)
    ensures forall j :: 0 <= j < i ==> ms[j].player != p
  {
    if ms == [] || ms[0].player == p then 0 else 1 + Find(ms[1..], p)
  }

  predicate Has(ms: seq<Member>, p: Player) { Find(ms, p) < |ms| }

  function FlagsOf(ms: seq<Member>, p: Player): Flags
    requires Has(ms, p)
  {
    ms[Find(ms, p)].flags
  }

  function Insert(ms: seq<Member>, m: Member): seq<Member> {
    if ms == [] || m.player < ms[0].player then [m] + ms else [ms[0]] + Insert(ms[1..], m)
  }

  function Without(ms: seq<Member>, i: nat): seq<Member>
    requires i < |ms|
  {
    ms[..i] + ms[i + 1..]
  }

  function Own(m: Member, owner: bool): Member { m.(flags := m.flags.(owner := owner)) }

  /** The loop of SetOwner: owners lose the flag; of the others the target takes it, or without a
      target the first one, unless it is `taken`. */
  function Reassign(ms: seq<Member>, target: Option<Player>, taken: bool): seq<Member> {
    if ms == [] then []
    else if ms[0].flags.owner then [Own(ms[0], false)] + Reassign(ms[1..], target, taken)
    else if (target.None? && !taken) || target == Some(ms[0].player) then [Own(ms[0], true)] + Reassign(ms[1..], target, true)
    else [ms[0]] + Reassign(ms[1..], target, taken)
  }

  // ---- Requests --------------------------------------------------------------------------

  datatype Power = Moderating | Voicing | Muting

  datatype Event =
    | Join(player: Player, gm: bool, password: string)
    | Part(player: Player)
    | SetOwner(player: Player, target: Player)
    | Kick(player: Player, target: Player, ban: bool)
    | Unban(player: Player, target: Player)
    | SetPower(player: Player, target: Player, power: Power, on: bool)
    | Moderate(player: Player, gm: bool)
    | Announce(player: Player)
    | SetPassword(player: Player, password: string)

  /** Owners and moderators may do what others may not. */
  predicate Rules(ms: seq<Member>, p: Player) {
    Has(ms, p) && (FlagsOf(ms, p).owner || FlagsOf(ms, p).moderator)
  }

  function AttemptJoin(c: Chat, p: Player, gm: bool, password: string): Chat {
    if (c.password != "" && c.password != password) || p in c.banned || Has(c.members, p) then c
    else
      var flags := Flags(c.members == [] && !c.general, !c.general && gm, false, false);
      c.(members := Insert(c.members, Member(p, flags)))
  }

  /** A member is taken out; if it was the owner, the first of the others becomes the owner. */
  function Leave(ms: seq<Member>, p: Player): seq<Member>
    requires Has(ms, p)
  {
    var left := Without(ms, Find(ms, p));
    if FlagsOf(ms, p).owner then Reassign(left, None, false) else left
  }

  /** A channel that the last member parts from is removed. */
  function PartFrom(c: Chat, p: Player): Chat {
    if !Has(c.members, p) then c
    else c.(members := Leave(c.members, p), removed := Leave(c.members, p) == [])
  }

  /** The target need not be a member, nor another one than the owner. */
  function HandOver(c: Chat, p: Player, target: Player): Chat {
    if !Has(c.members, p) || !FlagsOf(c.members, p).owner then c
    else c.(members := Reassign(c.members, Some(target), false))
  }

  function KickOut(c: Chat, p: Player, target: Player, ban: bool): Chat {
    if !Has(c.members, target) || !Rules(c.members, p) then c
    else c.(members := Leave(c.members, target), banned := c.banned + if ban then {target} else {})
  }

  function WithPower(f: Flags, power: Power, on: bool): Flags {
    match power
    case Moderating => f.(moderator := on)
    case Voicing => f.(voiced := on)
    case Muting => f.(muted := on)
  }

  function GivePower(c: Chat, p: Player, target: Player, power: Power, on: bool): Chat {
    if !Has(c.members, target) || !Rules(c.members, p) then c
    else
      var i := Find(c.members, target);
      c.(members := c.members[i := Member(target, WithPower(c.members[i].flags, power, on))])
  }

  function Step(c: Chat, ev: Event): Chat {
    if c.removed then c
    else match ev
      case Join(p, gm, password) => AttemptJoin(c, p, gm, password)
      case Part(p) => PartFrom(c, p)
      case SetOwner(p, target) => HandOver(c, p, target)
      case Kick(p, target, ban) => KickOut(c, p, target, ban)
      case Unban(p, target) => if Rules(c.members, p) then c.(banned := c.banned - {target}) else c
      case SetPower(p, target, power, on) => GivePower(c, p, target, power, on)
      case Moderate(p, gm) => if Has(c.members, p) && (Rules(c.members, p) || gm) then c.(muted := !c.muted) else c
      case Announce(p) => if Rules(c.members, p) then c.(announce := !c.announce) else c
      case SetPassword(p, password) => if Rules(c.members, p) then c.(password := password) else c
  }

  function NewChat(general: bool): Chat { Chat(general, "", false, !general, [], {}, false) }

  function Run(general: bool, evs: seq<Event>): Chat
    decreases |evs|
  {
    if evs == [] then NewChat(general) else Step(Run(general, evs[..|evs| - 1]), evs[|evs| - 1])
  }

  // ---- Owners ----------------------------------------------------------------------------

  function Owners(ms: seq<Member>): nat {
    if ms == [] then 0 else Owners(ms[1..]) + if ms[0].flags.owner then 1 else 0
  }

  ghost predicate Sorted(ms: seq<Member>) {
    forall i, j :: 0 <= i < j < |ms| ==> ms[i].player < ms[j].player
  }

  /** Some member is not an owner. */
  predicate Follower(ms: seq<Member>) { exists i :: 0 <= i < |ms| && !ms[i].flags.owner }

  lemma {:induction false} ReassignNone(ms: seq<Member>, taken: bool)
    ensures Owners(Reassign(ms, None, taken)) == if !taken && Follower(ms) then 1 else 0
  {
    if ms != [] {
      ReassignNone(ms[1..], taken || !ms[0].flags.owner);
      FollowerCons(ms);
    }
  }

  lemma FollowerCons(ms: seq<Member>)
    requires ms != []
    ensures Follower(ms) <==> !ms[0].flags.owner || Follower(ms[1..])
  {
    if i :| 0 <= i < |ms| && !ms[i].flags.owner { assert i > 0 ==> ms[1..][i - 1] == ms[i]; }
    if i :| 0 <= i < |ms[1..]| && !ms[1..][i].flags.owner { assert ms[i + 1] == ms[1..][i]; }
  }

  /** The target has the flag afterwards exactly if it is a member that did not have it before. */
  lemma {:induction false} ReassignSome(ms: seq<Member>, p: Player, taken: bool)
    requires Sorted(ms)
    ensures Owners(Reassign(ms, Some(p), taken)) == if Has(ms, p) && !FlagsOf(ms, p).owner then 1 else 0
  {
    if ms != [] {
      ReassignSome(ms[1..], p, taken);
      ReassignSome(ms[1..], p, true);
      if ms[0].player == p {
        forall i | 0 <= i < |ms[1..]| ensures ms[1..][i].player != p { assert ms[1..][i] == ms[i + 1]; }
      }
    }
  }

  lemma {:induction false} InsertOwners(ms: seq<Member>, m: Member)
    ensures Owners(Insert(ms, m)) == Owners(ms) + if m.flags.owner then 1 else 0
    ensures forall x :: x in Insert(ms, m) <==> x in ms || x == m
  {
    if ms != [] && m.player >= ms[0].player {
      InsertOwners(ms[1..], m);
      assert ms == [ms[0]] + ms[1..];
    }
  }

  lemma {:induction false} InsertSorted(ms: seq<Member>, m: Member)
    requires Sorted(ms) && forall i :: 0 <= i < |ms| ==> ms[i].player != m.player
    ensures Sorted(Insert(ms, m))
  {
    hide Owners;
    if ms != [] && m.player >= ms[0].player {
      InsertSorted(ms[1..], m);
      InsertOwners(ms[1..], m);
      var r := Insert(ms[1..], m);
      forall i | 0 <= i < |r| ensures ms[0].player < r[i].player { assert r[i] in r; }
    }
  }

  lemma {:induction false} WithoutOwners(ms: seq<Member>, i: nat)
    requires i < |ms|
    ensures Owners(Without(ms, i)) + (if ms[i].flags.owner then 1 else 0) == Owners(ms)
  {
    if i > 0 {
      WithoutOwners(ms[1..], i - 1);
      assert Without(ms, i)[0] == ms[0] && Without(ms, i)[1..] == Without(ms[1..], i - 1);
    } else {
      assert Without(ms, 0) == ms[1..];
    }
  }

  lemma WithoutSorted(ms: seq<Member>, i: nat)
    requires Sorted(ms) && i < |ms|
    ensures Sorted(Without(ms, i))
    ensures forall x :: x in Without(ms, i) ==> x in ms && x.player != ms[i].player
  {
    var r := Without(ms, i);
    forall k | 0 <= k < |r| ensures r[k] == ms[if k < i then k else k + 1] { }
  }

  /** Only the owner's flag changes hands. */
  lemma {:induction false} ReassignShape(ms: seq<Member>, target: Option<Player>, taken: bool, i: nat)
    requires i < |ms|
    ensures |Reassign(ms, target, taken)| == |ms|
    ensures Reassign(ms, target, taken)[i] == Own(ms[i], Reassign(ms, target, taken)[i].flags.owner)
  {
    var t := taken || (!ms[0].flags.owner && (target.None? || target == Some(ms[0].player)));
    assert Reassign(ms, target, taken)[1..] == Reassign(ms[1..], target, t);
    if i > 0 {
      ReassignShape(ms[1..], target, t, i - 1);
    } else if |ms| > 1 {
      ReassignShape(ms[1..], target, t, 0);
    }
  }

  lemma {:induction false} OwnersUpdate(ms: seq<Member>, i: nat, m: Member)
    requires i < |ms|
    ensures Owners(ms[i := m]) + (if ms[i].flags.owner then 1 else 0) == Owners(ms) + (if m.flags.owner then 1 else 0)
  {
    if i == 0 {
      assert ms[0 := m][1..] == ms[1..];
    } else {
      assert ms[i := m][1..] == ms[1..][i - 1 := m];
      OwnersUpdate(ms[1..], i - 1, m);
    }
  }

  // ---- What every request keeps ----------------------------------------------------------

  /** At most one owner, none in a general channel, and no banned member. */
  ghost predicate Inv(c: Chat) {
    && Sorted(c.members)
    && Owners(c.members) <= (if c.general then 0 else 1)
    && (forall m :: m in c.members ==> m.player !in c.banned)
  }

  lemma ReassignKeeps(ms: seq<Member>, target: Option<Player>)
    requires Sorted(ms)
    ensures Sorted(Reassign(ms, target, false)) && |Reassign(ms, target, false)| == |ms|
    ensures forall m :: m in Reassign(ms, target, false) ==> exists x :: x in ms && x.player == m.player
  {
    var r := Reassign(ms, target, false);
    forall i | 0 <= i < |ms| ensures |r| == |ms| && r[i].player == ms[i].player { ReassignShape(ms, target, false, i); }
    forall m | m in r ensures exists x :: x in ms && x.player == m.player {
      var i :| 0 <= i < |r| && r[i] == m;
      assert ms[i] in ms;
    }
  }

  /** Without its owner a channel gets a new one if anybody is left; otherwise the owner stays. */
  lemma LeaveKeeps(ms: seq<Member>, p: Player)
    requires Sorted(ms) && Owners(ms) <= 1 && Has(ms, p)
    ensures var r := Leave(ms, p);
            && Sorted(r) && |r| == |ms| - 1
            && Owners(r) == (if r == [] then 0 else Owners(ms))
            && forall m :: m in r ==> m.player != p && exists x :: x in ms && x.player == m.player
  {
    var i := Find(ms, p);
    var left := Without(ms, i);
    WithoutSorted(ms, i);
    WithoutOwners(ms, i);
    hide Owners;
    if ms[i].flags.owner {
      ReassignKeeps(left, None);
      ReassignNone(left, false);
      NoOwners(left);
    } else {
      NoOwners(left);
    }
  }

  /** The new owner is the first of the members in the map's order. */
  lemma FirstInherits(ms: seq<Member>, p: Player)
    requires Owners(ms) <= 1 && Has(ms, p) && FlagsOf(ms, p).owner && Leave(ms, p) != []
    ensures Leave(ms, p)[0].flags.owner && forall i :: 0 < i < |Leave(ms, p)| ==> !Leave(ms, p)[i].flags.owner
  {
    var left := Without(ms, Find(ms, p));
    WithoutOwners(ms, Find(ms, p));
    var r := Reassign(left, None, false);
    ReassignNone(left, false);
    forall i | 0 < i < |r| && r[i].flags.owner ensures false { TwoOwners(r, i); }
  }

  lemma {:induction false} TwoOwners(ms: seq<Member>, i: nat)
    requires 0 < i < |ms| && ms[0].flags.owner && ms[i].flags.owner
    ensures Owners(ms) >= 2
  {
    OneOwner(ms[1..], i - 1);
  }

  lemma {:induction false} OneOwner(ms: seq<Member>, i: nat)
    requires i < |ms| && ms[i].flags.owner
    ensures Owners(ms) >= 1
  {
    if i > 0 { OneOwner(ms[1..], i - 1); }
  }

  lemma {:induction false} NoOwners(ms: seq<Member>)
    ensures Owners(ms) == 0 ==> (Follower(ms) <==> ms != [])
    ensures ms == [] ==> Owners(ms) == 0
  {
    if ms != [] {
      NoOwners(ms[1..]);
      FollowerCons(ms);
    }
  }

  lemma {:induction false} OwnerCounts(ms: seq<Member>, p: Player)
    requires Has(ms, p) && FlagsOf(ms, p).owner
    ensures Owners(ms) > 0
  {
    if ms[0].player != p { OwnerCounts(ms[1..], p); }
  }

  /** An owner hands the channel to itself or to someone who is not a member. */
  predicate LosesOwner(c: Chat, ev: Event) {
    && ev.SetOwner? && !c.removed && Has(c.members, ev.player) && FlagsOf(c.members, ev.player).owner
    && (!Has(c.members, ev.target) || FlagsOf(c.members, ev.target).owner)
  }

  /** A channel with members but without the owner it should have. */
  predicate Headless(c: Chat) { !c.general && c.members != [] && Owners(c.members) == 0 }

  lemma JoinKeeps(c: Chat, p: Player, gm: bool, password: string)
    requires Inv(c)
    ensures var r := AttemptJoin(c, p, gm, password);
            Inv(r) && (Headless(r) <==> Headless(c)) && (c.members != [] ==> r.members != [])
  {
    hide Owners, Insert, Find;
    if !((c.password != "" && c.password != password) || p in c.banned || Has(c.members, p)) {
      var m := Member(p, Flags(c.members == [] && !c.general, !c.general && gm, false, false));
      InsertSorted(c.members, m);
      InsertOwners(c.members, m);
      assert m in Insert(c.members, m);
      NoOwners(c.members);
    }
  }

  /** A member leaves, and perhaps is banned. */
  lemma LeaveStep(c: Chat, p: Player, ban: set<Player>, removed: bool)
    requires Inv(c) && Has(c.members, p) && ban <= {p}
    ensures var r := c.(members := Leave(c.members, p), banned := c.banned + ban, removed := removed);
            Inv(r) && (Headless(r) <==> Headless(c) && r.members != [])
  {
    hide Owners, Leave, Find;
    LeaveKeeps(c.members, p);
  }

  lemma HandOverKeeps(c: Chat, p: Player, target: Player)
    requires Inv(c) && !c.removed
    ensures var r := HandOver(c, p, target);
            && Inv(r) && (c.members != [] ==> r.members != [])
            && (Headless(r) <==> LosesOwner(c, SetOwner(p, target)) || Headless(c))
  {
    hide Owners, Reassign, Find;
    if Has(c.members, p) && FlagsOf(c.members, p).owner {
      OwnerCounts(c.members, p);
      ReassignKeeps(c.members, Some(target));
      ReassignSome(c.members, target, false);
    }
  }

  lemma PowerKeeps(c: Chat, p: Player, target: Player, power: Power, on: bool)
    requires Inv(c)
    ensures var r := GivePower(c, p, target, power, on);
            Inv(r) && (Headless(r) <==> Headless(c)) && (c.members != [] ==> r.members != [])
  {
    hide Owners, Find;
    if Has(c.members, target) && Rules(c.members, p) {
      var i := Find(c.members, target);
      OwnersUpdate(c.members, i, Member(target, WithPower(c.members[i].flags, power, on)));
    }
  }

  /** Every request keeps the invariant; and a channel is without an owner afterwards exactly if the
      request gave the ownership away to nobody, or it was before and is not empty yet. */
  lemma StepKeeps(c: Chat, ev: Event)
    requires Inv(c) && (c.removed ==> c.members == [])
    ensures Inv(Step(c, ev)) && Step(c, ev).general == c.general && (Step(c, ev).removed ==> Step(c, ev).members == [])
    ensures Headless(Step(c, ev)) <==> LosesOwner(c, ev) || (Headless(c) && Step(c, ev).members != [])
  {
    hide Owners, Reassign, Leave, Insert, Find, Has, FlagsOf, Rules, Inv;
    if !c.removed {
      match ev {
        case Join(p, gm, password) => JoinKeeps(c, p, gm, password);
        case Part(p) =>
          assert c.banned + {} == c.banned;
          if Has(c.members, p) { LeaveStep(c, p, {}, Leave(c.members, p) == []); }
        case SetOwner(p, target) => HandOverKeeps(c, p, target);
        case Kick(p, target, ban) =>
          if Has(c.members, target) && Rules(c.members, p) { LeaveStep(c, target, if ban then {target} else {}, c.removed); }
        case SetPower(p, target, power, on) => PowerKeeps(c, p, target, power, on);
        case _ => SettingKeeps(c, ev);
      }
    }
  }

  /** Requests that leave the members alone. */
  lemma SettingKeeps(c: Chat, ev: Event)
    requires Inv(c) && (ev.Unban? || ev.Moderate? || ev.Announce? || ev.SetPassword?)
    ensures Inv(Step(c, ev)) && Step(c, ev).members == c.members && Step(c, ev).general == c.general && Step(c, ev).removed == c.removed
  {
    hide Owners, Has, Rules;
  }

  /** The channel lost its owner at some request and has not been empty since. */
  ghost predicate OwnerLost(general: bool, evs: seq<Event>)
    decreases |evs|
  {
    && evs != []
    && (LosesOwner(Run(general, evs[..|evs| - 1]), evs[|evs| - 1])
        || (OwnerLost(general, evs[..|evs| - 1]) && Run(general, evs).members != []))
  }

  /** An owner may name itself, and the channel is left without one. */
  lemma AnOwnerLost()
    ensures Headless(Run(false, [Join(1, false, ""), SetOwner(1, 1)])) && OwnerLost(false, [Join(1, false, ""), SetOwner(1, 1)])
  {
    var evs := [Join(1, false, ""), SetOwner(1, 1)];
    assert evs[..1] == [Join(1, false, "")] && evs[..1][..0] == [];
    var c := Run(false, evs[..1]);
    assert Run(false, []) == NewChat(false);
    assert c == NewChat(false).(members := [Member(1, Flags(true, false, false, false))]);
    assert LosesOwner(c, SetOwner(1, 1));
    ChatInEveryRun(false, evs);
  }

  /** Main theorem: in every run a channel has at most one owner, a general channel has none, no
      banned player is a member; and a channel with members that is not general has exactly one
      owner unless the ownership was given away to nobody since it was last empty. */
  lemma {:induction false} ChatInEveryRun(general: bool, evs: seq<Event>)
    ensures Inv(Run(general, evs)) && (Run(general, evs).removed ==> Run(general, evs).members == [])
    ensures Headless(Run(general, evs)) <==> OwnerLost(general, evs)
    ensures Run(general, evs).general == general
    decreases |evs|
  {
    if evs != [] {
      ChatInEveryRun(general, evs[..|evs| - 1]);
      StepKeeps(Run(general, evs[..|evs| - 1]), evs[|evs| - 1]);
    }
  }
}
