// The group tables and their handlers, updated in place as the node does it, each proved against GroupSpec.
module GroupNode {
  import opened Wrappers
  import opened Words
  import opened Symbolic
  import opened Signing
  import opened GroupBytes
  import Megolm = MegolmSpec
  import opened Spec = GroupSpec

  class GroupNode {
    const me: Peer
    var groups: map<GroupId, Group>
    var members: map<GroupId, seq<Peer>>
    var theirKeys: map<(GroupId, Peer), Megolm.Receiver>
    var mySenderKeys: map<GroupId, Megolm.Sender>
    /** What was handed to the pairwise sessions. */
    var sent: seq<Note>

    function View(): Tables
      reads this
    {
      Tables(groups, members, theirKeys, mySenderKeys, sent)
    }

    constructor (me: Peer)
      ensures this.me == me && View() == EMPTY
    {
      this.me := me;
      groups, members, theirKeys, mySenderKeys, sent := map[], map[], map[], map[], [];
    }

    // ----- store operations -----

    function GroupMembers(g: GroupId): seq<Peer>
      reads this`members
    {
      if g in members then members[g] else []
    }

    /** Inserts or replaces the row, epoch included. */
    method GroupUpsert(g: GroupId, name: bytes, founder: Peer, epoch: u64)
      modifies this`groups
      ensures groups == old(groups)[g := Group(name, founder, epoch)]
    {
      groups := groups[g := Group(name, founder, epoch)];
    }

    method GroupBumpEpoch(g: GroupId, epoch: u64)
      requires g in groups
      modifies this`groups
      ensures groups == old(groups)[g := old(groups)[g].(epoch := epoch)]
    {
      groups := groups[g := groups[g].(epoch := epoch)];
    }

    method AddMembers(g: GroupId, ps: seq<Peer>)
      modifies this`members
      ensures members == old(members)[g := JoinedAll(old(GroupMembers(g)), ps)]
    {
      members := members[g := GroupMembers(g)];
      for i := 0 to |ps|
        invariant members == old(members)[g := JoinedAll(old(GroupMembers(g)), ps[..i])]
      {
        assert ps[..i + 1][..i] == ps[..i];
        if ps[i] !in members[g] {
          members := members[g := members[g] + [ps[i]]];
        }
      }
      assert ps[..|ps|] == ps;
    }

    /** Each removed member goes together with the chain received from it. */
    method RemoveMembers(g: GroupId, ps: seq<Peer>)
      modifies this`members, this`theirKeys
      ensures members == old(members)[g := WithoutAll(old(GroupMembers(g)), ps)]
      ensures theirKeys == KeysWithoutAll(old(theirKeys), g, ps)
    {
      members := members[g := GroupMembers(g)];
      for i := 0 to |ps|
        invariant members == old(members)[g := WithoutAll(old(GroupMembers(g)), ps[..i])]
        invariant theirKeys == KeysWithoutAll(old(theirKeys), g, ps[..i])
      {
        assert ps[..i + 1][..i] == ps[..i];
        var kept := RemoveMember(members[g], ps[i]);
        members := members[g := kept];
        theirKeys := theirKeys - {(g, ps[i])};
      }
      assert ps[..|ps|] == ps;
    }

    method RemoveMember(ms: seq<Peer>, p: Peer) returns (kept: seq<Peer>)
      ensures kept == Without(ms, p)
    {
      hide Without;
      kept := [];
      assert ms[0..] == ms;
      for i := 0 to |ms|
        invariant Without(ms, p) == kept + Without(ms[i..], p)
      {
        WithoutSplits(ms, i, p);
        if ms[i] != p {
          kept := kept + [ms[i]];
        }
      }
      NoOneWithout(ms, p);
    }

    // ----- fan-out -----

    /** One copy for each of `ms`, through the session with it when there is one. */
    method Deliver(ms: seq<Peer>, skip: set<Peer>, reachable: set<Peer>, g: GroupId, content: Content)
      modifies this`sent
      ensures sent == old(sent) + FanOut(ms, skip, reachable, g, content)
    {
      hide FanOut;
      ghost var all := FanOut(ms, skip, reachable, g, content);
      ghost var done: seq<Note> := [];
      assert ms[0..] == ms;
      for i := 0 to |ms|
        invariant sent == old(sent) + done
        invariant all == done + FanOut(ms[i..], skip, reachable, g, content)
      {
        FanOutSplits(ms, i, skip, reachable, g, content);
        if ms[i] !in skip && ms[i] in reachable {
          sent := sent + [Note(ms[i], g, content)];
          done := done + [Note(ms[i], g, content)];
        }
      }
      NobodyLeft(ms, skip, reachable, g, content);
    }

    /** `rotate_my_sender_chain_and_broadcast`. */
    method Rotate(g: GroupId, epoch: u64, reachable: set<Peer>, drawn: nat)
      modifies this`mySenderKeys, this`sent
      ensures View() == Rotated(old(View()), me, g, epoch, reachable, drawn)
    {
      var chain := NewChain(drawn);
      mySenderKeys := mySenderKeys[g := chain];
      Deliver(GroupMembers(g), {me}, reachable, g, Keys(Megolm.CurrentBundle(chain), epoch));
    }

    /** `send_my_bundle_to`, for each of `ps`. */
    method SendMyBundleTo(g: GroupId, ps: seq<Peer>, reachable: set<Peer>)
      modifies this`sent
      ensures View() == Onboarded(old(View()), g, ps, reachable)
    {
      if g in groups && g in mySenderKeys {
        Deliver(ps, {}, reachable, g, Keys(Megolm.CurrentBundle(mySenderKeys[g]), groups[g].epoch));
      }
    }

    // ----- what arrives -----

    /** `process_group_control`: nothing changes before the signature over the canonical bytes verifies. */
    method ProcessGroupControl(sender: Peer, c: Control, sig: Signature, reachable: set<Peer>, drawn: nat)
      modifies this
      ensures View() == Controlled(old(View()), me, sender, c, sig, reachable, drawn)
    {
      match c
      case Create(g, name, founder, invited, epoch) =>
        var over := CanonicalCreateBytes(g, name, founder, invited, epoch);
        if !Verifies(founder, over, sig) || sender != founder || me !in invited {
          return;
        }
        GroupUpsert(g, name, founder, epoch);
        AddMembers(g, invited);
      case Update(g, added, removed, epoch) =>
        if g !in groups || epoch <= groups[g].epoch {
          return;
        }
        var over := CanonicalUpdateBytes(g, added, removed, epoch);
        if !Verifies(groups[g].founder, over, sig) {
          return;
        }
        ApplyUpdate(c, reachable, drawn);
      case Leave(g, leaver, epoch) =>
        var over := CanonicalLeaveBytes(g, leaver, epoch);
        if !Verifies(leaver, over, sig) {
          return;
        }
        var kept := RemoveMember(GroupMembers(g), leaver);
        members := members[g := kept];
        theirKeys := theirKeys - {(g, leaver)};
        Rotate(g, if g in groups then groups[g].epoch else 0, reachable, drawn);
    }

    /** Members first, then the chains: a removal rotates mine, and whoever was added gets the current one. */
    method ApplyUpdate(c: Control, reachable: set<Peer>, drawn: nat)
      requires c.Update? && c.groupId in groups
      modifies this
      ensures View() == Updated(old(View()), me, c, reachable, drawn)
    {
      hide FanOut, JoinedAll, WithoutAll, KeysWithoutAll, Rotated, Onboarded;
      AddMembers(c.groupId, c.added);
      RemoveMembers(c.groupId, c.removed);
      GroupBumpEpoch(c.groupId, c.epoch);
      assert View() == Changed(old(View()), c.groupId, c.added, c.removed, c.epoch);
      if c.removed != [] {
        Rotate(c.groupId, c.epoch, reachable, drawn);
      }
      SendMyBundleTo(c.groupId, c.added, reachable);
    }

    method ProcessSenderKeys(sender: Peer, g: GroupId, bundle: Megolm.Bundle)
      modifies this`theirKeys
      ensures View() == Distributed(old(View()), sender, g, bundle)
    {
      if sender in GroupMembers(g) {
        theirKeys := theirKeys[(g, sender) := Megolm.FromBundle(bundle)];
      }
    }

    method ProcessGroupMessage(sender: Peer, g: GroupId, msg: Megolm.GroupMessage) returns (text: Option<bytes>)
      modifies this`theirKeys
      ensures (View(), text) == Received(old(View()), sender, g, msg)
    {
      if sender !in GroupMembers(g) || (g, sender) !in theirKeys {
        return None;
      }
      var (r, result) := Megolm.Decrypted(theirKeys[(g, sender)], msg, GroupAd(g, sender));
      match result
      case Failure(_) => return None;
      case Success(plaintext) =>
        theirKeys := theirKeys[(g, sender) := r];
        text := Some(plaintext);
    }

    // ----- what the user asks for -----

    method HandleGroupCreate(g: GroupId, name: bytes, invited: seq<Peer>, reachable: set<Peer>)
      modifies this
      ensures View() == MadeGroup(old(View()), me, g, name, invited, reachable)
    {
      hide FanOut, JoinedAll, Body, ToSign;
      var ms := if me in invited then invited else [me] + invited;
      var over := CanonicalCreateBytes(g, name, me, ms, 0);
      GroupUpsert(g, name, me, 0);
      AddMembers(g, ms);
      Deliver(ms, {me}, reachable, g, Announce(Create(g, name, me, ms, 0), Signature(me, over)));
    }

    /** Only the founder may; the members told include the new one. */
    method HandleGroupAdd(g: GroupId, p: Peer, reachable: set<Peer>)
      requires g in groups ==> groups[g].epoch + 1 < U64_LIMIT
      modifies this
      ensures View() == After(old(View()), me, AddMember(g, p, reachable))
    {
      if g !in groups || groups[g].founder != me {
        return;
      }
      var epoch := groups[g].epoch + 1;
      hide FanOut, Body, ToSign, Onboarded, JoinedAll, WithoutAll, KeysWithoutAll, Changed;
      AddingChanges(View(), g, p, epoch);
      var over := CanonicalUpdateBytes(g, [p], [], epoch);
      AddMembers(g, [p]);
      GroupBumpEpoch(g, epoch);
      assert View() == Changed(old(View()), g, [p], [], epoch);
      Deliver(GroupMembers(g), {me}, reachable, g, Announce(Update(g, [p], [], epoch), Signature(me, over)));
      SendMyBundleTo(g, [p], reachable);
    }

    /** Only the founder may; the removed peer is not told, and my chain is replaced. */
    method HandleGroupRemove(g: GroupId, p: Peer, reachable: set<Peer>, drawn: nat)
      requires g in groups ==> groups[g].epoch + 1 < U64_LIMIT
      modifies this
      ensures View() == After(old(View()), me, Spec.RemoveMember(g, p, reachable, drawn))
    {
      if g !in groups || groups[g].founder != me {
        return;
      }
      var epoch := groups[g].epoch + 1;
      hide FanOut, Body, ToSign, Rotated, JoinedAll, WithoutAll, KeysWithoutAll, Changed;
      RemovingChanges(View(), g, p, epoch);
      var over := CanonicalUpdateBytes(g, [], [p], epoch);
      RemoveMembers(g, [p]);
      GroupBumpEpoch(g, epoch);
      assert View() == Changed(old(View()), g, [], [p], epoch);
      Deliver(GroupMembers(g), {me, p}, reachable, g, Announce(Update(g, [], [p], epoch), Signature(me, over)));
      Rotate(g, epoch, reachable, drawn);
    }

    method HandleGroupLeave(g: GroupId, reachable: set<Peer>)
      modifies this
      ensures View() == LeftGroup(old(View()), me, g, reachable)
    {
      if g !in groups {
        return;
      }
      var over := CanonicalLeaveBytes(g, me, groups[g].epoch);
      Deliver(GroupMembers(g), {me}, reachable, g, Announce(Leave(g, me, groups[g].epoch), Signature(me, over)));
      GroupForget(g);
    }

    method GroupForget(g: GroupId)
      modifies this
      ensures View() == Forgotten(old(View()), g)
    {
      theirKeys := map k | k in theirKeys && k.0 != g :: theirKeys[k];
      mySenderKeys := mySenderKeys - {g};
      members := members - {g};
      groups := groups - {g};
    }

    /** `group_send`. */
    method GroupSend(g: GroupId, plaintext: bytes, reachable: set<Peer>, drawn: nat)
      modifies this
      ensures View() == SentText(old(View()), me, g, plaintext, reachable, drawn)
    {
      if g !in groups {
        return;
      }
      var ms := GroupMembers(g);
      var first := g !in mySenderKeys;
      var chain := if first then NewChain(drawn) else mySenderKeys[g];
      if first {
        Deliver(ms, {me}, reachable, g, Keys(Megolm.CurrentBundle(chain), groups[g].epoch));
      }
      var (next, msg) := Megolm.Encrypted(chain, plaintext, GroupAd(g, me));
      mySenderKeys := mySenderKeys[g := next];
      Deliver(ms, {me}, reachable, g, Text(msg));
      assert old(sent) + [] == old(sent);
    }
  }
}
