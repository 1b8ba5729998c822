// Several nodes of one group: what the founder announces takes a member that was in step to the founder's
// own new state, and what a member sends opens where its chain was installed.
module GroupAgreement {
  import opened Wrappers
  import opened Words
  import opened Symbolic
  import opened Signing
  import opened GroupBytes
  import Megolm = MegolmSpec
  import opened GroupSpec

  /** Two nodes see the same group: founder, epoch, and members in whatever order. */
  ghost predicate SameGroup(t: Tables, u: Tables, g: GroupId) {
    && g in t.groups && g in u.groups
    && t.groups[g].founder == u.groups[g].founder && t.groups[g].epoch == u.groups[g].epoch
    && forall p :: p in Members(t, g) <==> p in Members(u, g)
  }

  function SignedBy(me: Peer, c: Control): Content {
    Announce(c, Signature(me, ToSign(GroupControl, Body(c))))
  }

  /** The note that reaches `peer` and, taken in by a node there, brings `u` to the founder's new view. */
  ghost predicate BringsAlong(mine: Tables, before: Tables, me: Peer, peer: Peer, c: Control, u: Tables,
                        reachable: set<Peer>, drawn: nat) {
    var note := Note(peer, c.groupId, SignedBy(me, c));
    && |before.sent| <= |mine.sent| && note in mine.sent[|before.sent|..]
    && SameGroup(mine, Controlled(u, peer, me, c, note.content.sig, reachable, drawn), c.groupId)
  }

  /** The node has the row, with that founder and an older epoch, and its members differ from the founder's
      at most in those the update names. */
  ghost predicate CanFollow(t: Tables, u: Tables, c: Control)
    requires c.Update? && c.groupId in t.groups
  {
    && c.groupId in u.groups
    && u.groups[c.groupId].founder == t.groups[c.groupId].founder
    && u.groups[c.groupId].epoch < c.epoch
    && forall q | q !in c.added && q !in c.removed :: q in Members(t, c.groupId) <==> q in Members(u, c.groupId)
  }

  /** Groups and members are all that counts. */
  lemma SameTables(t: Tables, u: Tables, t': Tables, u': Tables, g: GroupId)
    requires t'.groups == t.groups && t'.members == t.members && u'.groups == u.groups && u'.members == u.members
    ensures SameGroup(t, u, g) <==> SameGroup(t', u', g)
  {
    assert Members(t', g) == Members(t, g) && Members(u', g) == Members(u, g);
  }

  /** Once the note is known to have gone out, only the view is in question. */
  lemma BringingIsView(mine: Tables, before: Tables, me: Peer, peer: Peer, c: Control, u: Tables,
                       reachable: set<Peer>, drawn: nat)
    requires |before.sent| <= |mine.sent| && Note(peer, c.groupId, SignedBy(me, c)) in mine.sent[|before.sent|..]
    ensures BringsAlong(mine, before, me, peer, c, u, reachable, drawn) <==>
              SameGroup(mine, Controlled(u, peer, me, c, Signature(me, ToSign(GroupControl, Body(c))), reachable, drawn), c.groupId)
  {
    hide SameGroup, Controlled, Body, ToSign;
  }

  lemma Announced(sent: seq<Note>, from: nat, notes: seq<Note>, note: Note)
    requires from + |notes| <= |sent| && sent[from..][..|notes|] == notes && note in notes
    ensures note in sent[from..]
  {
  }

  /** What an accepted update does to groups and members is `Changed`; rotation and onboarding only add
      chains and notes. */
  lemma UpdateChanges(u: Tables, peer: Peer, sender: Peer, c: Control, sig: Signature, reachable: set<Peer>, drawn: nat)
    requires UpdateAccepted(u, c, sig)
    ensures var after, changed := Controlled(u, peer, sender, c, sig, reachable, drawn), Changed(u, c.groupId, c.added, c.removed, c.epoch);
            after.groups == changed.groups && after.members == changed.members && after.theirKeys == changed.theirKeys
  {
  }

  lemma ChangesAgree(t: Tables, u: Tables, c: Control)
    requires c.Update? && c.groupId in t.groups && c.groupId in u.groups
    requires t.groups[c.groupId].founder == u.groups[c.groupId].founder && u.groups[c.groupId].epoch < c.epoch
    ensures SameGroup(Changed(t, c.groupId, c.added, c.removed, c.epoch), Changed(u, c.groupId, c.added, c.removed, c.epoch), c.groupId)
            <==> CanFollow(t, u, c)
  {
    var g := c.groupId;
    ChangedMembers(t, g, c.added, c.removed, c.epoch);
    ChangedMembers(u, g, c.added, c.removed, c.epoch);
    var mine, theirs := Changed(t, g, c.added, c.removed, c.epoch), Changed(u, g, c.added, c.removed, c.epoch);
    if SameGroup(mine, theirs, g) {
      forall q | q !in c.added && q !in c.removed ensures q in Members(t, g) <==> q in Members(u, g) {
        assert q in Members(mine, g) <==> q in Members(theirs, g);
      }
    }
  }

  /** A founder's update reaches any node at all: afterwards the node has the founder's new view if and only
      if it could follow, or had that view already. */
  lemma UpdateGivesView(t: Tables, u: Tables, mine: Tables, me: Peer, peer: Peer, c: Control, reachable: set<Peer>,
                        drawn: nat)
    requires c.Update? && c.groupId in t.groups && t.groups[c.groupId].founder == me
    requires var changed := Changed(t, c.groupId, c.added, c.removed, c.epoch);
             mine.groups == changed.groups && mine.members == changed.members
    ensures var sig := Signature(me, ToSign(GroupControl, Body(c)));
            SameGroup(mine, Controlled(u, peer, me, c, sig, reachable, drawn), c.groupId) <==>
              CanFollow(t, u, c) || SameGroup(mine, u, c.groupId)
  {
    var sig := Signature(me, ToSign(GroupControl, Body(c)));
    var changed := Changed(t, c.groupId, c.added, c.removed, c.epoch);
    var theirs := Controlled(u, peer, me, c, sig, reachable, drawn);
    if UpdateAccepted(u, c, sig) {
      ChangesAgree(t, u, c);
      UpdateChanges(u, peer, me, c, sig, reachable, drawn);
      var followed := Changed(u, c.groupId, c.added, c.removed, c.epoch);
      hide *;
      SameTables(changed, followed, mine, theirs, c.groupId);
    } else {
      assert theirs == u;
    }
  }

  lemma AdditionSends(t: Tables, me: Peer, g: GroupId, p: Peer, reachable: set<Peer>)
    requires MayChange(t, me, g)
    ensures var c := Update(g, [p], [], t.groups[g].epoch + 1);
            var changed := Changed(t, g, [p], [], c.epoch);
            var mine := AddedMember(t, me, g, p, reachable);
            var notes := FanOut(Members(changed, g), {me}, reachable, g, SignedBy(me, c));
            && mine.groups == changed.groups && mine.members == changed.members && mine.theirKeys == changed.theirKeys
            && |t.sent| + |notes| <= |mine.sent| && mine.sent[|t.sent|..][..|notes|] == notes
  {
    hide FanOut, Body, ToSign, WithoutAll, JoinedAll, KeysWithoutAll;
  }

  lemma AdditionTells(t: Tables, me: Peer, g: GroupId, p: Peer, reachable: set<Peer>, peer: Peer)
    requires MayChange(t, me, g) && peer != me && peer in reachable && (peer in Members(t, g) || peer == p)
    ensures var c := Update(g, [p], [], t.groups[g].epoch + 1);
            var mine := AddedMember(t, me, g, p, reachable);
            |t.sent| <= |mine.sent| && Note(peer, g, SignedBy(me, c)) in mine.sent[|t.sent|..]
  {
    assert g in t.groups && t.groups[g].epoch + 1 < U64_LIMIT;
    hide *;
    var c := Update(g, [p], [], t.groups[g].epoch + 1);
    AdditionSends(t, me, g, p, reachable);
    ChangedMembers(t, g, [p], [], c.epoch);
    var notes := FanOut(Members(Changed(t, g, [p], [], c.epoch), g), {me}, reachable, g, SignedBy(me, c));
    Announced(AddedMember(t, me, g, p, reachable).sent, |t.sent|, notes, Note(peer, g, SignedBy(me, c)));
  }

  /** An addition goes to every member and to the new one. It gives a peer that is told the founder's view if
      and only if its node already has the row, with that founder, an older epoch, and members that differ at
      most in the one added; or had the view already. */
  lemma AdditionAgrees(t: Tables, me: Peer, g: GroupId, p: Peer, reachable: set<Peer>, peer: Peer, u: Tables,
                       reachable': set<Peer>, drawn: nat)
    requires MayChange(t, me, g) && peer != me && peer in reachable && (peer in Members(t, g) || peer == p)
    ensures var c := Update(g, [p], [], t.groups[g].epoch + 1);
            var mine := AddedMember(t, me, g, p, reachable);
            BringsAlong(mine, t, me, peer, c, u, reachable', drawn) <==> CanFollow(t, u, c) || SameGroup(mine, u, g)
  {
    var c := Update(g, [p], [], t.groups[g].epoch + 1);
    assert t.groups[g].founder == me;
    AdditionSends(t, me, g, p, reachable);
    AdditionTells(t, me, g, p, reachable, peer);
    hide *;
    var mine := AddedMember(t, me, g, p, reachable);
    UpdateGivesView(t, u, mine, me, peer, c, reachable', drawn);
    BringingIsView(mine, t, me, peer, c, u, reachable', drawn);
  }

  lemma RemovalSends(t: Tables, me: Peer, g: GroupId, p: Peer, reachable: set<Peer>, rotation: nat)
    requires MayChange(t, me, g)
    ensures var c := Update(g, [], [p], t.groups[g].epoch + 1);
            var changed := Changed(t, g, [], [p], c.epoch);
            var mine := RemovedMember(t, me, g, p, reachable, rotation);
            && mine.groups == changed.groups && mine.members == changed.members && mine.theirKeys == changed.theirKeys
            && var notes := FanOut(Members(changed, g), {me, p}, reachable, g, SignedBy(me, c));
            && |t.sent| + |notes| <= |mine.sent| && mine.sent[|t.sent|..][..|notes|] == notes
            && Note(p, g, SignedBy(me, c)) !in mine.sent[|t.sent|..]
  {
    hide Body, ToSign, WithoutAll, JoinedAll, KeysWithoutAll;
    var c := Update(g, [], [p], t.groups[g].epoch + 1);
    var changed := Changed(t, g, [], [p], c.epoch);
    var notes := FanOut(Members(changed, g), {me, p}, reachable, g, SignedBy(me, c));
    var keys := FanOut(Members(changed, g), {me}, reachable, g, Keys(Megolm.CurrentBundle(NewChain(rotation)), c.epoch));
    assert RemovedMember(t, me, g, p, reachable, rotation).sent[|t.sent|..] == notes + keys;
  }

  /** The update of a removal goes to each other member that can be reached, and not to the removed peer. */
  lemma RemovalTells(t: Tables, me: Peer, g: GroupId, p: Peer, reachable: set<Peer>, rotation: nat, peer: Peer)
    requires MayChange(t, me, g) && peer !in {me, p} && peer in reachable && peer in Members(t, g)
    ensures var c := Update(g, [], [p], t.groups[g].epoch + 1);
            var mine := RemovedMember(t, me, g, p, reachable, rotation);
            && |t.sent| <= |mine.sent| && Note(peer, g, SignedBy(me, c)) in mine.sent[|t.sent|..]
            && Note(p, g, SignedBy(me, c)) !in mine.sent[|t.sent|..]
  {
    assert g in t.groups && t.groups[g].epoch + 1 < U64_LIMIT;
    hide *;
    var c := Update(g, [], [p], t.groups[g].epoch + 1);
    RemovalSends(t, me, g, p, reachable, rotation);
    ChangedMembers(t, g, [], [p], c.epoch);
    var notes := FanOut(Members(Changed(t, g, [], [p], c.epoch), g), {me, p}, reachable, g, SignedBy(me, c));
    Announced(RemovedMember(t, me, g, p, reachable, rotation).sent, |t.sent|, notes, Note(peer, g, SignedBy(me, c)));
  }

  /** A removal, likewise, for everyone but the removed peer, which is not told. */
  lemma RemovalAgrees(t: Tables, me: Peer, g: GroupId, p: Peer, reachable: set<Peer>, rotation: nat, peer: Peer,
                      u: Tables, reachable': set<Peer>, drawn: nat)
    requires MayChange(t, me, g) && peer !in {me, p} && peer in reachable && peer in Members(t, g)
    ensures var c := Update(g, [], [p], t.groups[g].epoch + 1);
            var mine := RemovedMember(t, me, g, p, reachable, rotation);
            && (BringsAlong(mine, t, me, peer, c, u, reachable', drawn) <==> CanFollow(t, u, c) || SameGroup(mine, u, g))
            && Note(p, g, SignedBy(me, c)) !in mine.sent[|t.sent|..]
  {
    var c := Update(g, [], [p], t.groups[g].epoch + 1);
    assert t.groups[g].founder == me;
    RemovalSends(t, me, g, p, reachable, rotation);
    RemovalTells(t, me, g, p, reachable, rotation, peer);
    hide *;
    var mine := RemovedMember(t, me, g, p, reachable, rotation);
    UpdateGivesView(t, u, mine, me, peer, c, reachable', drawn);
    BringingIsView(mine, t, me, peer, c, u, reachable', drawn);
  }

  /** A peer that is removed and added again has missed the removal and follows the addition all the same,
      if it was in step before. */
  lemma ReturnAgrees(t: Tables, me: Peer, g: GroupId, p: Peer, reachable: set<Peer>, rotation: nat, u: Tables,
                     reachable': set<Peer>, drawn: nat)
    requires MayChange(t, me, g) && t.groups[g].epoch + 2 < U64_LIMIT && p != me && p in reachable && SameGroup(t, u, g)
    ensures var away := RemovedMember(t, me, g, p, reachable, rotation);
            MayChange(away, me, g) &&
            BringsAlong(AddedMember(away, me, g, p, reachable), away, me, p, Update(g, [p], [], t.groups[g].epoch + 2), u, reachable', drawn)
  {
    hide FanOut, Body, ToSign, WithoutAll, JoinedAll, KeysWithoutAll, RemovedMember, AddedMember, Controlled, BringsAlong;
    var away := RemovedMember(t, me, g, p, reachable, rotation);
    RemovalSends(t, me, g, p, reachable, rotation);
    ChangedMembers(t, g, [], [p], t.groups[g].epoch + 1);
    assert Members(away, g) == Members(Changed(t, g, [], [p], t.groups[g].epoch + 1), g);
    AdditionAgrees(away, me, g, p, reachable, p, u, reachable', drawn);
  }

  // ----- a peer that joins later -----

  /** The node knows nothing of the group. */
  ghost predicate Outside(u: Tables, g: GroupId) {
    && g !in u.groups && Members(u, g) == []
    && forall k | k in u.theirKeys :: k.0 != g
  }

  /** A node that knows nothing of a group stays outside whatever arrives, updates that name it and bundles
      sent to it included, until someone creates the group anew; and no text of the group opens there. */
  lemma {:induction false} OutsiderStaysOut(u: Tables, peer: Peer, events: seq<Event>, g: GroupId)
    requires Outside(u, g) && forall e | e in events :: !Makes(peer, e, g)
    ensures var end := AfterAll(u, peer, events);
            Outside(end, g) && forall sender, msg :: Received(end, sender, g, msg) == (end, None)
    decreases |events|
  {
    if events != [] {
      StepStaysOut(u, peer, events[0], g);
      OutsiderStaysOut(After(u, peer, events[0]), peer, events[1..], g);
    }
  }

  lemma StepStaysOut(u: Tables, peer: Peer, e: Event, g: GroupId)
    requires Outside(u, g) && !Makes(peer, e, g)
    ensures Outside(After(u, peer, e), g)
  {
    hide Body, ToSign, FanOut, JoinedAll, WithoutAll, KeysWithoutAll, NewChain, Controlled, AddedMember, RemovedMember;
    match e
    case ControlArrives(sender, c, sig, reachable, drawn) => ControlStaysOut(u, peer, sender, c, sig, reachable, drawn, g);
    case AddMember(h, p, reachable) =>
      if MayChange(u, peer, h) {
        AdditionSends(u, peer, h, p, reachable);
        ChangeStaysOut(u, AddedMember(u, peer, h, p, reachable), h, [p], [], u.groups[h].epoch + 1, g);
      }
    case RemoveMember(h, p, reachable, drawn) =>
      if MayChange(u, peer, h) {
        RemovalSends(u, peer, h, p, reachable, drawn);
        ChangeStaysOut(u, RemovedMember(u, peer, h, p, reachable, drawn), h, [], [p], u.groups[h].epoch + 1, g);
      }
    case _ =>
  }

  /** Changing another group. */
  lemma ChangeStaysOut(u: Tables, after: Tables, h: GroupId, added: seq<Peer>, removed: seq<Peer>, epoch: u64, g: GroupId)
    requires Outside(u, g) && h in u.groups
    requires var changed := Changed(u, h, added, removed, epoch);
             after.groups == changed.groups && after.members == changed.members && after.theirKeys == changed.theirKeys
    ensures Outside(after, g)
  {
    KeysWithoutAllHas(u.theirKeys, h, removed);
    hide JoinedAll, WithoutAll, KeysWithoutAll;
  }

  lemma ControlStaysOut(u: Tables, peer: Peer, sender: Peer, c: Control, sig: Signature, reachable: set<Peer>, drawn: nat, g: GroupId)
    requires Outside(u, g) && !(CreateAccepted(peer, sender, c, sig) && c.groupId == g)
    ensures Outside(Controlled(u, peer, sender, c, sig, reachable, drawn), g)
  {
    hide Body, ToSign, FanOut, JoinedAll, WithoutAll, KeysWithoutAll, NewChain;
    if c.Update? && UpdateAccepted(u, c, sig) {
      UpdateChanges(u, peer, sender, c, sig, reachable, drawn);
      ChangeStaysOut(u, Controlled(u, peer, sender, c, sig, reachable, drawn), c.groupId, c.added, c.removed, c.epoch, g);
    }
  }

  /** Leaving: nothing of the group is left, no member, no chain of anyone's and not one's own; other groups
      are as they were; and so it stays, whatever arrives, until someone creates the group anew. */
  lemma LeaverStaysOut(t: Tables, me: Peer, g: GroupId, reachable: set<Peer>, events: seq<Event>)
    requires g in t.groups && forall e | e in events :: !Makes(me, e, g)
    ensures var left := LeftGroup(t, me, g, reachable);
            && Outside(left, g) && g !in left.mySenderKeys
            && (forall h | h != g ::
                  && (h in left.groups <==> h in t.groups) && (h in t.groups ==> left.groups[h] == t.groups[h])
                  && Members(left, h) == Members(t, h)
                  && (h in left.mySenderKeys <==> h in t.mySenderKeys) && (h in t.mySenderKeys ==> left.mySenderKeys[h] == t.mySenderKeys[h]))
            && (forall k | k in t.theirKeys && k.0 != g :: k in left.theirKeys && left.theirKeys[k] == t.theirKeys[k])
            && var end := AfterAll(left, me, events);
               Outside(end, g) && forall sender, msg :: Received(end, sender, g, msg) == (end, None)
  {
    hide Body, ToSign, FanOut;
    OutsiderStaysOut(LeftGroup(t, me, g, reachable), me, events, g);
  }

  /** So the new member of an addition is told and is left out: it is a member for the founder, while at its
      node the update, the founder's bundle and the next text change nothing. */
  lemma JoinerLeftOut(t: Tables, me: Peer, g: GroupId, p: Peer, reachable: set<Peer>, u: Tables, reachable': set<Peer>,
                      drawn: nat, bundle: Megolm.Bundle, msg: Megolm.GroupMessage)
    requires MayChange(t, me, g) && p != me && p in reachable && Outside(u, g)
    ensures var c := Update(g, [p], [], t.groups[g].epoch + 1);
            var mine := AddedMember(t, me, g, p, reachable);
            && p in Members(mine, g) && Note(p, g, SignedBy(me, c)) in mine.sent[|t.sent|..]
            && Controlled(u, p, me, c, Signature(me, ToSign(GroupControl, Body(c))), reachable', drawn) == u
            && Distributed(u, me, g, bundle) == u
            && Received(u, me, g, msg) == (u, None)
            && !BringsAlong(mine, t, me, p, c, u, reachable', drawn)
  {
    var c := Update(g, [p], [], t.groups[g].epoch + 1);
    AdditionAgrees(t, me, g, p, reachable, p, u, reachable', drawn);
    AdditionSends(t, me, g, p, reachable);
    ChangedMembers(t, g, [p], [], c.epoch);
    var mine, changed := AddedMember(t, me, g, p, reachable), Changed(t, g, [p], [], c.epoch);
    assert Members(mine, g) == Members(changed, g);
    var notes := FanOut(Members(changed, g), {me}, reachable, g, SignedBy(me, c));
    Announced(mine.sent, |t.sent|, notes, Note(p, g, SignedBy(me, c)));
  }

  /** The shortest case: a founder alone, whose update is its first, and a peer whose node is empty. */
  lemma FirstJoinerLeftOut(me: Peer, g: GroupId, p: Peer, drawn: nat, bundle: Megolm.Bundle, msg: Megolm.GroupMessage)
    requires p != me
    ensures var t := MadeGroup(EMPTY, me, g, [], [], {});
            var c := Update(g, [p], [], 1);
            && MayChange(t, me, g) && t.groups[g].epoch == 0
            && p in Members(AddedMember(t, me, g, p, {p}), g)
            && After(EMPTY, p, ControlArrives(me, c, Signature(me, ToSign(GroupControl, Body(c))), {}, drawn)) == EMPTY
            && After(EMPTY, p, KeysArrive(me, g, bundle)) == EMPTY
            && Received(EMPTY, me, g, msg) == (EMPTY, None)
  {
    var t := MadeGroup(EMPTY, me, g, [], [], {});
    JoinerLeftOut(t, me, g, p, {p}, EMPTY, {}, drawn, bundle, msg);
  }

  // ----- creation -----

  lemma CreationSends(t: Tables, me: Peer, g: GroupId, name: bytes, invited: seq<Peer>, reachable: set<Peer>)
    ensures var members := if me in invited then invited else [me] + invited;
            var made, mine := Created(t, g, name, me, members, 0), MadeGroup(t, me, g, name, invited, reachable);
            && var notes := FanOut(members, {me}, reachable, g, SignedBy(me, Create(g, name, me, members, 0)));
            && mine.groups == made.groups && mine.members == made.members
            && |t.sent| + |notes| <= |mine.sent| && mine.sent[|t.sent|..][..|notes|] == notes
  {
    hide FanOut, Body, ToSign, JoinedAll;
  }

  /** A creation gives an invited peer that is told the founder's view if and only if the two held the same
      members before, apart from those invited: in particular when neither knew of the group. */
  lemma CreationAgrees(t: Tables, me: Peer, g: GroupId, name: bytes, invited: seq<Peer>, reachable: set<Peer>,
                       peer: Peer, u: Tables, reachable': set<Peer>, drawn: nat)
    requires peer in invited && peer != me && peer in reachable
    ensures var members := if me in invited then invited else [me] + invited;
            var c := Create(g, name, me, members, 0);
            && MadeGroup(t, me, g, name, invited, reachable).groups[g] == Group(name, me, 0)
            && Controlled(u, peer, me, c, Signature(me, ToSign(GroupControl, Body(c))), reachable', drawn).groups[g] == Group(name, me, 0)
            && (BringsAlong(MadeGroup(t, me, g, name, invited, reachable), t, me, peer, c, u, reachable', drawn) <==>
                forall q | q !in members :: q in Members(t, g) <==> q in Members(u, g))
  {
    var members := if me in invited then invited else [me] + invited;
    var c := Create(g, name, me, members, 0);
    var sig := Signature(me, ToSign(GroupControl, Body(c)));
    assert peer in members && CreateAccepted(peer, me, c, sig);
    hide FanOut, Body, ToSign, JoinedAll, CreateAccepted, MadeGroup;
    CreationSends(t, me, g, name, invited, reachable);
    CreationsAgree(t, u, g, name, me, members);
    var mine, theirs := MadeGroup(t, me, g, name, invited, reachable), Controlled(u, peer, me, c, sig, reachable', drawn);
    SameTables(Created(t, g, name, me, members, 0), Created(u, g, name, me, members, 0), mine, theirs, g);
    var notes := FanOut(members, {me}, reachable, g, SignedBy(me, c));
    hide BringsAlong;
    Announced(mine.sent, |t.sent|, notes, Note(peer, g, SignedBy(me, c)));
    BringingIsView(mine, t, me, peer, c, u, reachable', drawn);
  }

  /** A creation that arrives, whoever sent it: it takes effect exactly when its founder signed it and sent it
      and I am on its list; then the row is the one announced, whatever was there, and those listed are
      members as well as those that were. */
  lemma CreationInstalls(u: Tables, me: Peer, sender: Peer, c: Control, sig: Signature, reachable: set<Peer>, drawn: nat)
    requires c.Create?
    ensures var after, g := Controlled(u, me, sender, c, sig, reachable, drawn), c.groupId;
            if Signed(c, c.founder, sig) && sender == c.founder && me in c.members then
              && after.groups == u.groups[g := Group(c.name, c.founder, c.epoch)]
              && (forall p :: p in Members(after, g) <==> p in Members(u, g) || p in c.members)
              && after.theirKeys == u.theirKeys && after.mySenderKeys == u.mySenderKeys && after.sent == u.sent
            else after == u
  {
    JoinedAllHas(Members(u, c.groupId), c.members);
    hide Body, ToSign, JoinedAll;
  }

  /** An update that arrives: it takes effect exactly when the group is known, its epoch is newer and the stored
      founder signed it; then the epoch is its own, members come and go as it says, and of the stored chains
      exactly those of the removed go. */
  lemma UpdateInstalls(u: Tables, me: Peer, sender: Peer, c: Control, sig: Signature, reachable: set<Peer>, drawn: nat)
    requires c.Update?
    ensures var after, g := Controlled(u, me, sender, c, sig, reachable, drawn), c.groupId;
            if g in u.groups && c.epoch > u.groups[g].epoch && Signed(c, u.groups[g].founder, sig) then
              && after.groups == u.groups[g := Group(u.groups[g].name, u.groups[g].founder, c.epoch)]
              && (forall p :: p in Members(after, g) <==> (p in Members(u, g) || p in c.added) && p !in c.removed)
              && (forall k :: k in after.theirKeys <==> k in u.theirKeys && !(k.0 == g && k.1 in c.removed))
              && (forall k | k in after.theirKeys :: after.theirKeys[k] == u.theirKeys[k])
            else after == u
  {
    if UpdateAccepted(u, c, sig) {
      UpdateChanges(u, me, sender, c, sig, reachable, drawn);
      ChangedMembers(u, c.groupId, c.added, c.removed, c.epoch);
      KeysWithoutAllHas(u.theirKeys, c.groupId, c.removed);
      hide Body, ToSign, JoinedAll, WithoutAll, KeysWithoutAll, Controlled;
    }
  }

  lemma CreationsAgree(t: Tables, u: Tables, g: GroupId, name: bytes, founder: Peer, members: seq<Peer>)
    ensures SameGroup(Created(t, g, name, founder, members, 0), Created(u, g, name, founder, members, 0), g) <==>
              forall q | q !in members :: q in Members(t, g) <==> q in Members(u, g)
  {
    JoinedAllHas(Members(t, g), members);
    JoinedAllHas(Members(u, g), members);
    var mine, theirs := Created(t, g, name, founder, members, 0), Created(u, g, name, founder, members, 0);
    forall q | q !in members
      ensures (q in Members(t, g) <==> q in Members(mine, g)) && (q in Members(u, g) <==> q in Members(theirs, g))
    {
    }
  }

  // ----- texts across nodes -----

  /** At a node whose stored chain stands for the texts `o` it has opened, a text opens exactly when the
      specification accepts it, and then counts as opened; otherwise nothing changes. */
  lemma TextOpens(u: Tables, sender: Peer, g: GroupId, base: Key, signer: nat, o: Megolm.Opened, i: u32,
                  plaintext: bytes)
    requires Megolm.WellFormed(o) && i + 1 < U32_LIMIT
    requires sender in Members(u, g) && (g, sender) in u.theirKeys && u.theirKeys[(g, sender)] == Megolm.Standing(base, signer, o)
    ensures var (after, text) := Received(u, sender, g, Megolm.Honest(base, signer, i, plaintext, GroupAd(g, sender)));
            if Megolm.Accepts(o, i)
            then text == Some(plaintext) && Megolm.WellFormed(Megolm.Accept(o, i)) &&
                 after == u.(theirKeys := u.theirKeys[(g, sender) := Megolm.Standing(base, signer, Megolm.Accept(o, i))])
            else text == None && after == u
  {
    Megolm.ReceiverRefinesSet(base, signer, o, i, plaintext, GroupAd(g, sender));
  }

  /** The keys handed out before a text open it, at any member that has installed them, and open it once. */
  lemma KeysOpenTheText(t: Tables, me: Peer, g: GroupId, plaintext: bytes, reachable: set<Peer>, drawn: nat,
                        base: Key, i: u32, signer: nat, u: Tables)
    requires g in t.groups && me in Members(u, g) && i + 1 < U32_LIMIT
    requires (if g in t.mySenderKeys then t.mySenderKeys[g] else NewChain(drawn)) == Megolm.Sender(Advance(base, i), i, signer)
    ensures var chain := if g in t.mySenderKeys then t.mySenderKeys[g] else NewChain(drawn);
            var msg := Megolm.Honest(base, signer, i, plaintext, GroupAd(g, me));
            var installed := Distributed(u, me, g, Megolm.CurrentBundle(chain));
            var (after, text) := Received(installed, me, g, msg);
            && (forall p | p in Members(t, g) && p != me && p in reachable ::
                  Note(p, g, Text(msg)) in SentText(t, me, g, plaintext, reachable, drawn).sent)
            && text == Some(plaintext)
            && Received(after, me, g, msg) == (after, None)
  {
    var chain := if g in t.mySenderKeys then t.mySenderKeys[g] else NewChain(drawn);
    Megolm.SenderEmits(base, signer, i, plaintext, GroupAd(g, me));
    Megolm.BundleStands(base, signer, i);
    TextGoesOut(t, me, g, plaintext, reachable, drawn);
    var none := Megolm.Opened(i, i, {});
    var installed := Distributed(u, me, g, Megolm.CurrentBundle(chain));
    TextOpens(installed, me, g, base, signer, none, i, plaintext);
    TextOpens(Received(installed, me, g, Megolm.Honest(base, signer, i, plaintext, GroupAd(g, me))).0, me, g, base, signer,
              Megolm.Accept(none, i), i, plaintext);
    var sent := SentText(t, me, g, plaintext, reachable, drawn).sent;
    forall p | p in Members(t, g) && p != me && p in reachable
      ensures Note(p, g, Text(Megolm.Honest(base, signer, i, plaintext, GroupAd(g, me)))) in sent
    {
      assert Note(p, g, Text(Megolm.Honest(base, signer, i, plaintext, GroupAd(g, me)))) in sent[|t.sent|..];
    }
  }

  /** A text that opens at a node is signed by the owner of the chain stored for the member it came from, for
      this group and this member: no other member can pass for it. Anything else changes nothing. */
  lemma TextIsTheOwners(u: Tables, sender: Peer, g: GroupId, msg: Megolm.GroupMessage)
    ensures var (after, text) := Received(u, sender, g, msg);
            if text.Some? then
              && sender in Members(u, g) && (g, sender) in u.theirKeys && u.theirKeys[(g, sender)].verifyPub.VerifyKey?
              && msg.signature == Megolm.Signed(u.theirKeys[(g, sender)].verifyPub.signer, msg.index, GroupAd(g, sender), msg.ciphertext)
              && msg.ciphertext.Sealed? && text.value == msg.ciphertext.plaintext
              && after == u.(theirKeys := after.theirKeys) && after.theirKeys.Keys == u.theirKeys.Keys
              && forall k | k in u.theirKeys && k != (g, sender) :: after.theirKeys[k] == u.theirKeys[k]
            else after == u
  {
    if (g, sender) in u.theirKeys {
      Megolm.OpensOnlySigned(u.theirKeys[(g, sender)], msg, GroupAd(g, sender));
    }
  }
}
