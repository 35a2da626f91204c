/** The channel as an object whose requests change its member map in place. */
module ChannelObjects {
  import opened Wrappers
  import opened Channels
  import C = Channels

  class Channel {
    const general: bool
    var password: string
    var muted: bool
    var announce: bool
    var members: seq<Member>
    var banned: set<Player>
    var removed: bool

    ghost function View(): Chat
      reads this
    {
      Chat(general, password, muted, announce, members, banned, removed)
    }

    ghost predicate Valid()
      reads this
    {
      Inv(View()) && (removed ==> members == [])
    }

    constructor (general: bool)
      ensures Valid() && View() == NewChat(general)
    {
      this.general, password, muted, announce := general, "", false, !general;
      members, banned, removed := [], {}, false;
    }

    method FindMember(p: Player) returns (i: nat)
      ensures i == Find(members, p)
    {
      i := 0;
      while i < |members| && members[i].player != p
        invariant i <= |members| && Find(members, p) == i + Find(members[i..], p)
        decreases |members| - i
      {
        assert members[i..][1..] == members[i + 1..];
        i := i + 1;
      }
    }

    method AttemptJoin(p: Player, gm: bool, password: string)
      requires Valid() && !removed
      modifies this
      ensures Valid() && View() == Step(old(View()), Join(p, gm, password))
    {
      StepKeeps(View(), Join(p, gm, password));
      hide Inv;
      var flags := Flags(false, false, false, false);
      if !general && gm { flags := flags.(moderator := true); }
      if this.password != "" && this.password != password { return; }
      if p in banned { return; }
      var i := FindMember(p);
      if i < |members| { return; }
      if members == [] && !general { flags := flags.(owner := true); }
      members := Insert(members, Member(p, flags));
    }

    /** The loop of SetOwner over the members; `target` None stands for NULL. */
    method Reassign(target: Option<Player>)
      modifies `members
      ensures members == C.Reassign(old(members), target, false)
    {
      ghost var before, done := members, [];
      var taken := false;
      assert [] + C.Reassign(before[0..], target, false) == C.Reassign(before, target, false);
      ReassignEnd(target);
      hide C.Reassign;
      for i := 0 to |members|
        invariant |done| == i && i <= |before| == |members| && members == done + before[i..]
        invariant C.Reassign(before, target, false) == done + C.Reassign(before[i..], target, taken)
      {
        ReassignNext(before, done, i, target, taken);
        var m := members[i];
        if m.flags.owner {
          members := members[i := m.(flags := m.flags.(owner := false))];
        } else if target.None? {
          if !taken {
            members := members[i := m.(flags := m.flags.(owner := true))];
            taken := true;
          }
        } else if target.value == m.player {
          members := members[i := m.(flags := m.flags.(owner := true))];
          taken := true;
        }
        done := done + [members[i]];
      }
    }

    lemma ReassignEnd(target: Option<Player>)
      ensures forall taken :: C.Reassign([], target, taken) == []
    {
    }

    /** One turn of the loop. */
    lemma ReassignNext(before: seq<Member>, done: seq<Member>, i: nat, target: Option<Player>, taken: bool)
      requires i < |before| && |done| == i
      ensures (done + before[i..])[i] == before[i]
      ensures forall m: Member :: (done + before[i..])[i := m] == done + [m] + before[i + 1..]
      ensures var m := before[i];
              var takes := !m.flags.owner && ((target.None? && !taken) || target == Some(m.player));
              var n := if m.flags.owner then Own(m, false) else if takes then Own(m, true) else m;
              && n == Member(m.player, n.flags)
              && done + C.Reassign(before[i..], target, taken)
                 == done + [n] + C.Reassign(before[i + 1..], target, taken || takes)
    {
      assert before[i..][0] == before[i] && before[i..][1..] == before[i + 1..];
    }

    /** The member at `i` leaves. */
    method Erase(i: nat)
      requires i < |members| && i == Find(members, members[i].player)
      modifies `members
      ensures members == Leave(old(members), old(members)[i].player)
    {
      var flags := members[i].flags;
      members := members[..i] + members[i + 1..];
      if flags.owner { Reassign(None); }
    }

    method Part(p: Player)
      requires Valid() && !removed
      modifies this
      ensures Valid() && View() == Step(old(View()), C.Part(p))
    {
      StepKeeps(View(), C.Part(p));
      hide Inv, Leave;
      var i := FindMember(p);
      if i == |members| { return; }
      Erase(i);
      if |members| == 0 { removed := true; }
    }

    method SetOwner(p: Player, target: Player)
      requires Valid() && !removed
      modifies this
      ensures Valid() && View() == Step(old(View()), C.SetOwner(p, target))
    {
      StepKeeps(View(), C.SetOwner(p, target));
      hide Inv;
      var i := FindMember(p);
      if i == |members| { return; }
      if !members[i].flags.owner { return; }
      Reassign(Some(target));
    }

    method Kick(p: Player, target: Player, ban: bool)
      requires Valid() && !removed
      modifies this
      ensures Valid() && View() == Step(old(View()), C.Kick(p, target, ban))
    {
      StepKeeps(View(), C.Kick(p, target, ban));
      hide Inv, Leave;
      var i := FindMember(target);
      var me := FindMember(p);
      if me == |members| { return; }
      if i == |members| { return; }
      if !(members[me].flags.owner || members[me].flags.moderator) { return; }
      Erase(i);
      banned := banned + if ban then {target} else {};
    }

    method Unban(p: Player, target: Player)
      requires Valid() && !removed
      modifies this
      ensures Valid() && View() == Step(old(View()), C.Unban(p, target))
    {
      StepKeeps(View(), C.Unban(p, target));
      hide Inv;
      var me := FindMember(p);
      if me == |members| { return; }
      if !(members[me].flags.owner || members[me].flags.moderator) { return; }
      if target !in banned {
        assert banned - {target} == banned;
        return;
      }
      banned := banned - {target};
    }

    /** Mute, Unmute, Voice, Devoice, GiveModerator and TakeModerator. */
    method SetPower(p: Player, target: Player, power: Power, on: bool)
      requires Valid() && !removed
      modifies this
      ensures Valid() && View() == Step(old(View()), C.SetPower(p, target, power, on))
    {
      StepKeeps(View(), C.SetPower(p, target, power, on));
      hide Inv;
      var me := FindMember(p);
      var i := FindMember(target);
      if me == |members| { return; }
      if i == |members| { return; }
      if !(members[me].flags.owner || members[me].flags.moderator) { return; }
      members := members[i := Member(target, WithPower(members[i].flags, power, on))];
    }
  }
}
