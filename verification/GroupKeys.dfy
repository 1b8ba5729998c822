// Who is handed my sender chain. A text can be read by a member that was handed the chain it is sent under,
// at an index no later; this module says exactly who that is, in every state a run can reach.
module GroupKeys {
  import opened Wrappers
  import opened Words
  import opened Symbolic
  import opened Signing
  import opened GroupBytes
  import Megolm = MegolmSpec
  import opened GroupSpec

  // ----- one note -----

  /** The bundle is of this chain, at an index the chain has reached. */
  predicate OfChain(b: Megolm.Bundle, chain: Megolm.Sender) {
    && b.verifyPub == Megolm.VerifyKey(chain.signPriv) && b.index <= chain.index
    && chain.chainKey == Advance(b.chainKey, chain.index - b.index)
  }

  /** A member that takes the bundle in reads the next text of the chain, unless more than MAX_SKIP texts have
      gone by since. */
  lemma BundleOpens(u: Tables, me: Peer, g: GroupId, b: Megolm.Bundle, chain: Megolm.Sender, plaintext: bytes)
    requires me in Members(u, g) && OfChain(b, chain)
    ensures var msg := Megolm.Encrypted(chain, plaintext, GroupAd(g, me)).1;
            Received(Distributed(u, me, g, b), me, g, msg).1 ==
              if chain.index - b.index <= Megolm.MAX_SKIP then Some(plaintext) else None
  {
  }

  // ----- one send -----

  ghost predicate NoOneTwice(ms: seq<Peer>) {
    forall i, j | 0 <= i < j < |ms| :: ms[i] != ms[j]
  }

  /** The notes for one peer, in order. */
  function To(notes: seq<Note>, p: Peer): seq<Note> {
    if notes == [] then [] else (if notes[0].to == p then [notes[0]] else []) + To(notes[1..], p)
  }

  lemma ToFirst(n: Note, rest: seq<Note>, p: Peer)
    ensures To([n] + rest, p) == (if n.to == p then [n] else []) + To(rest, p)
  {
    assert ([n] + rest)[1..] == rest;
  }

  lemma {:induction false} ToJoins(a: seq<Note>, b: seq<Note>, p: Peer)
    ensures To(a + b, p) == To(a, p) + To(b, p)
  {
    if a == [] {
      assert a + b == b;
    } else {
      var first, rest := a[0], a[1..];
      assert a == [first] + rest && a + b == [first] + (rest + b);
      ToJoins(rest, b, p);
      hide To;
      ToFirst(first, rest, p);
      ToFirst(first, rest + b, p);
    }
  }

  lemma FanOutFirst(first: Peer, rest: seq<Peer>, skip: set<Peer>, reachable: set<Peer>, g: GroupId, content: Content)
    ensures FanOut([first] + rest, skip, reachable, g, content) ==
              (if first in skip || first !in reachable then [] else [Note(first, g, content)]) + FanOut(rest, skip, reachable, g, content)
  {
    assert ([first] + rest)[1..] == rest;
  }

  lemma {:induction false} FanOutTo(ms: seq<Peer>, skip: set<Peer>, reachable: set<Peer>, g: GroupId, content: Content, p: Peer)
    requires NoOneTwice(ms)
    ensures To(FanOut(ms, skip, reachable, g, content), p) ==
              if p in ms && p !in skip && p in reachable then [Note(p, g, content)] else []
  {
    if ms != [] {
      var first, rest := ms[0], ms[1..];
      assert ms == [first] + rest;
      assert first !in rest;
      FanOutTo(rest, skip, reachable, g, content, p);
      var notes := FanOut(rest, skip, reachable, g, content);
      hide To, FanOut;
      FanOutFirst(first, rest, skip, reachable, g, content);
      if first in skip || first !in reachable {
        assert [] + notes == notes;
      } else {
        ToFirst(Note(first, g, content), notes, p);
      }
    }
  }

  /** The first text of a group: every other member that can be reached is handed two notes, the keys and then
      the text, and taking in those two gives the plaintext; nobody else is handed anything. */
  lemma FirstTextOpens(t: Tables, me: Peer, g: GroupId, plaintext: bytes, reachable: set<Peer>, drawn: nat, p: Peer)
    requires g in t.groups && g !in t.mySenderKeys && NoOneTwice(Members(t, g))
    ensures var after := SentText(t, me, g, plaintext, reachable, drawn);
            && |t.sent| <= |after.sent| && after.sent[..|t.sent|] == t.sent
            && var notes := To(after.sent[|t.sent|..], p);
            if p in Members(t, g) && p != me && p in reachable then
              && |notes| == 2 && notes[0].group == g && notes[1].group == g
              && notes[0].content.Keys? && notes[0].content.epoch == t.groups[g].epoch && notes[1].content.Text?
              && forall u | me in Members(u, g) ::
                   Received(Distributed(u, me, g, notes[0].content.bundle), me, g, notes[1].content.msg).1 == Some(plaintext)
            else notes == []
  {
    var chain := NewChain(drawn);
    var msg := Megolm.Encrypted(chain, plaintext, GroupAd(g, me)).1;
    var bundle := Megolm.CurrentBundle(chain);
    var keys, text := Keys(bundle, t.groups[g].epoch), Text(msg);
    FirstTextNotes(t, me, g, plaintext, reachable, drawn);
    FirstBundleOpens(me, g, plaintext, drawn);
    hide *;
    ToJoins(FanOut(Members(t, g), {me}, reachable, g, keys), FanOut(Members(t, g), {me}, reachable, g, text), p);
    FanOutTo(Members(t, g), {me}, reachable, g, keys, p);
    FanOutTo(Members(t, g), {me}, reachable, g, text, p);
    if p in Members(t, g) && p != me && p in reachable {
      assert To(SentText(t, me, g, plaintext, reachable, drawn).sent[|t.sent|..], p) == [Note(p, g, keys), Note(p, g, text)];
    }
  }

  lemma FirstTextNotes(t: Tables, me: Peer, g: GroupId, plaintext: bytes, reachable: set<Peer>, drawn: nat)
    requires g in t.groups && g !in t.mySenderKeys
    ensures var after := SentText(t, me, g, plaintext, reachable, drawn);
            var keys := Keys(Megolm.CurrentBundle(NewChain(drawn)), t.groups[g].epoch);
            var text := Text(Megolm.Encrypted(NewChain(drawn), plaintext, GroupAd(g, me)).1);
            && |t.sent| <= |after.sent| && after.sent[..|t.sent|] == t.sent
            && after.sent[|t.sent|..] ==
                 FanOut(Members(t, g), {me}, reachable, g, keys) + FanOut(Members(t, g), {me}, reachable, g, text)
  {
    hide FanOut, Megolm.Encrypted, Megolm.CurrentBundle;
  }

  lemma FirstBundleOpens(me: Peer, g: GroupId, plaintext: bytes, drawn: nat)
    ensures var msg := Megolm.Encrypted(NewChain(drawn), plaintext, GroupAd(g, me)).1;
            forall u | me in Members(u, g) ::
              Received(Distributed(u, me, g, Megolm.CurrentBundle(NewChain(drawn))), me, g, msg).1 == Some(plaintext)
  {
    var chain := NewChain(drawn);
    assert OfChain(Megolm.CurrentBundle(chain), chain);
    forall u | me in Members(u, g)
      ensures Received(Distributed(u, me, g, Megolm.CurrentBundle(chain)), me, g, Megolm.Encrypted(chain, plaintext, GroupAd(g, me)).1).1 ==
              Some(plaintext)
    {
      BundleOpens(u, me, g, Megolm.CurrentBundle(chain), chain, plaintext);
    }
  }

  /** A later text: one note each, the text. */
  lemma LaterTextGoesOut(t: Tables, me: Peer, g: GroupId, plaintext: bytes, reachable: set<Peer>, drawn: nat, p: Peer)
    requires g in t.groups && g in t.mySenderKeys && NoOneTwice(Members(t, g))
    ensures var after := SentText(t, me, g, plaintext, reachable, drawn);
            && |t.sent| <= |after.sent| && after.sent[..|t.sent|] == t.sent
            && To(after.sent[|t.sent|..], p) ==
                 (if p in Members(t, g) && p != me && p in reachable
                  then [Note(p, g, Text(Megolm.Encrypted(t.mySenderKeys[g], plaintext, GroupAd(g, me)).1))] else [])
            && after.mySenderKeys[g].signPriv == t.mySenderKeys[g].signPriv
  {
    var msg := Megolm.Encrypted(t.mySenderKeys[g], plaintext, GroupAd(g, me)).1;
    assert SentText(t, me, g, plaintext, reachable, drawn).sent[|t.sent|..] == FanOut(Members(t, g), {me}, reachable, g, Text(msg));
    FanOutTo(Members(t, g), {me}, reachable, g, Text(msg), p);
  }

  // ----- nobody is a member twice -----

  ghost predicate MembersOnce(t: Tables) {
    forall g | g in t.members :: NoOneTwice(t.members[g])
  }

  lemma {:induction false} JoinedOnce(ms: seq<Peer>, ps: seq<Peer>)
    requires NoOneTwice(ms)
    ensures NoOneTwice(JoinedAll(ms, ps))
  {
    if ps != [] {
      JoinedOnce(ms, ps[..|ps| - 1]);
    }
  }

  lemma {:induction false} WithoutOnce(ms: seq<Peer>, p: Peer)
    requires NoOneTwice(ms)
    ensures NoOneTwice(Without(ms, p))
  {
    if ms != [] {
      assert NoOneTwice(ms[1..]);
      WithoutOnce(ms[1..], p);
      WithoutHas(ms[1..], p);
      var rest := Without(ms[1..], p);
      forall j | 0 <= j < |rest| ensures rest[j] != ms[0] {
        assert rest[j] in rest && rest[j] in ms[1..];
      }
    }
  }

  lemma {:induction false} WithoutAllOnce(ms: seq<Peer>, ps: seq<Peer>)
    requires NoOneTwice(ms)
    ensures NoOneTwice(WithoutAll(ms, ps))
  {
    if ps != [] {
      WithoutAllOnce(ms, ps[..|ps| - 1]);
      WithoutOnce(WithoutAll(ms, ps[..|ps| - 1]), ps[|ps| - 1]);
    }
  }

  lemma StepKeepsMembersOnce(t: Tables, me: Peer, e: Event)
    requires MembersOnce(t)
    ensures MembersOnce(After(t, me, e))
  {
    hide Body, ToSign, FanOut, NoOneTwice, JoinedAll, WithoutAll, Without, KeysWithoutAll, NewChain;
    NoMembersOnce();
    match e
    case ControlArrives(_, c, _, _, _) =>
      match c {
        case Create(g, _, _, members, _) => JoinedOnce(Members(t, g), members);
        case Update(g, added, removed, _) => ChangedOnce(t, g, added, removed);
        case Leave(g, leaver, _) => WithoutOnce(Members(t, g), leaver);
      }
    case MakeGroup(g, _, invited, _) => JoinedOnce(Members(t, g), if me in invited then invited else [me] + invited);
    case AddMember(g, p, _) => ChangedOnce(t, g, [p], []);
    case RemoveMember(g, p, _, _) => ChangedOnce(t, g, [], [p]);
    case _ =>
  }

  lemma NoMembersOnce()
    ensures NoOneTwice([])
  {
  }

  lemma ChangedOnce(t: Tables, g: GroupId, added: seq<Peer>, removed: seq<Peer>)
    requires MembersOnce(t)
    ensures NoOneTwice(WithoutAll(JoinedAll(Members(t, g), added), removed))
  {
    JoinedOnce(Members(t, g), added);
    WithoutAllOnce(JoinedAll(Members(t, g), added), removed);
  }

  lemma {:induction false} RunKeepsMembersOnce(t: Tables, me: Peer, events: seq<Event>)
    requires MembersOnce(t)
    ensures MembersOnce(AfterAll(t, me, events))
    decreases |events|
  {
    if events != [] {
      StepKeepsMembersOnce(t, me, events[0]);
      RunKeepsMembersOnce(After(t, me, events[0]), me, events[1..]);
    }
  }

  // ----- who holds the chain in use -----

  /** `p` has been handed the chain I now send under in `g`. */
  ghost predicate Holds(t: Tables, g: GroupId, p: Peer) {
    exists n :: n in t.sent && Current(t, n) && n.group == g && n.to == p
  }

  /** The event replaces my chain in `g`, or draws the first. */
  predicate Draws(t: Tables, me: Peer, e: Event, g: GroupId) {
    match e
    case ControlArrives(_, c, sig, _, _) =>
      c.groupId == g && ((UpdateAccepted(t, c, sig) && c.removed != []) || (c.Leave? && Signed(c, c.leaver, sig)))
    case RemoveMember(h, _, _, _) => h == g && MayChange(t, me, g)
    case SendText(h, _, _, _) => h == g && g in t.groups && g !in t.mySenderKeys
    case _ => false
  }

  /** The event hands `p` the chain that is in use afterwards: `p` can be reached, and either a chain is drawn
      and `p` is another member by then, or `p` is added while there is one. */
  predicate Hands(t: Tables, me: Peer, e: Event, g: GroupId, p: Peer) {
    match e
    case ControlArrives(_, c, sig, reachable, _) =>
      c.groupId == g && p in reachable &&
      (match c
       case Create(_, _, _, _, _) => false
       case Update(_, added, removed, _) =>
         UpdateAccepted(t, c, sig) &&
         ((removed != [] && p != me && (p in Members(t, g) || p in added) && p !in removed) ||
          (p in added && (removed != [] || g in t.mySenderKeys)))
       case Leave(_, leaver, _) => Signed(c, leaver, sig) && p != me && p in Members(t, g) && p != leaver)
    case AddMember(h, q, reachable) => h == g && MayChange(t, me, g) && p == q && p in reachable && g in t.mySenderKeys
    case RemoveMember(h, q, reachable, _) =>
      h == g && MayChange(t, me, g) && p in reachable && p != me && p in Members(t, g) && p != q
    case SendText(h, _, reachable, _) =>
      h == g && g in t.groups && g !in t.mySenderKeys && p in reachable && p != me && p in Members(t, g)
    case _ => false
  }

  /** The event does away with the chain. */
  predicate Drops(t: Tables, e: Event, g: GroupId) {
    e.LeaveGroup? && e.g == g && g in t.groups
  }

  /** The same chain as before, perhaps moved on, and more notes. */
  lemma HoldsWithNotes(t: Tables, after: Tables, notes: seq<Note>, g: GroupId, p: Peer)
    requires after.sent == t.sent + notes
    requires g in t.mySenderKeys <==> g in after.mySenderKeys
    requires g in t.mySenderKeys ==> after.mySenderKeys[g].signPriv == t.mySenderKeys[g].signPriv
    ensures Holds(after, g, p) <==> Holds(t, g, p) || exists n :: n in notes && Current(after, n) && n.group == g && n.to == p
  {
    if Holds(t, g, p) {
      var n :| n in t.sent && Current(t, n) && n.group == g && n.to == p;
      assert n in after.sent && Current(after, n);
    }
    if n :| n in notes && Current(after, n) && n.group == g && n.to == p {
      assert n in after.sent;
    }
    if Holds(after, g, p) {
      var n :| n in after.sent && Current(after, n) && n.group == g && n.to == p;
      assert n in t.sent ==> Current(t, n);
    }
  }

  /** A chain just drawn: only the notes that come with it count. */
  lemma HoldsWithChain(t: Tables, after: Tables, notes: seq<Note>, g: GroupId, p: Peer, drawn: nat)
    requires after.sent == t.sent + notes && forall n | n in t.sent :: !Handed(n, drawn)
    requires g in after.mySenderKeys && after.mySenderKeys[g].signPriv == drawn
    ensures Holds(after, g, p) <==> exists n :: n in notes && Current(after, n) && n.group == g && n.to == p
  {
    if n :| n in notes && Current(after, n) && n.group == g && n.to == p {
      assert n in after.sent;
    }
    if Holds(after, g, p) {
      var n :| n in after.sent && Current(after, n) && n.group == g && n.to == p;
      assert n in t.sent ==> !Handed(n, drawn);
    }
  }

  /** Whether one fan-out of keys brings the chain to `p`. */
  lemma KeysReach(after: Tables, ms: seq<Peer>, skip: set<Peer>, reachable: set<Peer>, g: GroupId, bundle: Megolm.Bundle,
                  epoch: u64, p: Peer)
    requires g in after.mySenderKeys && bundle.verifyPub == Megolm.VerifyKey(after.mySenderKeys[g].signPriv)
    ensures var notes := FanOut(ms, skip, reachable, g, Keys(bundle, epoch));
            (exists n :: n in notes && Current(after, n) && n.group == g && n.to == p) <==> p in ms && p !in skip && p in reachable
  {
    var notes := FanOut(ms, skip, reachable, g, Keys(bundle, epoch));
    if p in ms && p !in skip && p in reachable {
      assert Note(p, g, Keys(bundle, epoch)) in notes && Current(after, Note(p, g, Keys(bundle, epoch)));
    }
  }

  lemma OthersReachNobody(after: Tables, ms: seq<Peer>, skip: set<Peer>, reachable: set<Peer>, g: GroupId, content: Content)
    requires !content.Keys?
    ensures forall n | n in FanOut(ms, skip, reachable, g, content) :: !Current(after, n)
  {
  }

  // Step by step.

  ghost predicate Unhanded(t: Tables, drawn: nat) {
    forall n | n in t.sent :: !Handed(n, drawn)
  }

  lemma SameHolds(t: Tables, after: Tables, g: GroupId, p: Peer)
    requires after.sent == t.sent && after.mySenderKeys == t.mySenderKeys
    ensures Holds(after, g, p) <==> Holds(t, g, p)
  {
    assert t.sent + [] == t.sent;
    HoldsWithNotes(t, after, [], g, p);
  }

  lemma RotatedHolds(t: Tables, me: Peer, g: GroupId, epoch: u64, reachable: set<Peer>, drawn: nat, h: GroupId, p: Peer)
    requires Unhanded(t, drawn)
    ensures Holds(Rotated(t, me, g, epoch, reachable, drawn), h, p) <==>
              if h == g then p in Members(t, g) && p != me && p in reachable else Holds(t, h, p)
  {
    var bundle := Megolm.CurrentBundle(NewChain(drawn));
    var after := Rotated(t, me, g, epoch, reachable, drawn);
    var notes := FanOut(Members(t, g), {me}, reachable, g, Keys(bundle, epoch));
    hide FanOut;
    if h == g {
      HoldsWithChain(t, after, notes, g, p, drawn);
      KeysReach(after, Members(t, g), {me}, reachable, g, bundle, epoch, p);
    } else {
      HoldsWithNotes(t, after, notes, h, p);
    }
  }

  lemma OnboardedHolds(t: Tables, g: GroupId, ps: seq<Peer>, reachable: set<Peer>, h: GroupId, p: Peer)
    ensures Holds(Onboarded(t, g, ps, reachable), h, p) <==>
              Holds(t, h, p) || (h == g && g in t.groups && g in t.mySenderKeys && p in ps && p in reachable)
  {
    if g in t.groups && g in t.mySenderKeys {
      var bundle := Megolm.CurrentBundle(t.mySenderKeys[g]);
      var after := Onboarded(t, g, ps, reachable);
      var notes := FanOut(ps, {}, reachable, g, Keys(bundle, t.groups[g].epoch));
      hide FanOut;
      HoldsWithNotes(t, after, notes, h, p);
      KeysReach(after, ps, {}, reachable, g, bundle, t.groups[g].epoch, p);
    }
  }

  /** Notes that are not keys. */
  lemma ToldHolds(t: Tables, ms: seq<Peer>, skip: set<Peer>, reachable: set<Peer>, g: GroupId, content: Content, h: GroupId, p: Peer)
    requires !content.Keys?
    ensures Holds(t.(sent := t.sent + FanOut(ms, skip, reachable, g, content)), h, p) <==> Holds(t, h, p)
  {
    var after := t.(sent := t.sent + FanOut(ms, skip, reachable, g, content));
    OthersReachNobody(after, ms, skip, reachable, g, content);
    HoldsWithNotes(t, after, FanOut(ms, skip, reachable, g, content), h, p);
  }

  lemma UpdateHolds(t: Tables, me: Peer, c: Control, reachable: set<Peer>, drawn: nat, h: GroupId, p: Peer)
    requires c.Update? && c.groupId in t.groups && Unhanded(t, drawn)
    ensures Holds(Updated(t, me, c, reachable, drawn), h, p) <==>
              if h != c.groupId then Holds(t, h, p)
              else if c.removed == [] then Holds(t, h, p) || (p in c.added && p in reachable && h in t.mySenderKeys)
              else p in reachable && (p in c.added || (p != me && p in Members(t, h) && p !in c.removed))
  {
    var g := c.groupId;
    var changed := Changed(t, g, c.added, c.removed, c.epoch);
    ChangedMembers(t, g, c.added, c.removed, c.epoch);
    assert g in changed.groups && changed.mySenderKeys == t.mySenderKeys && changed.sent == t.sent;
    SameHolds(t, changed, h, p);
    hide Changed, Holds;
    if c.removed != [] {
      RotatedHolds(changed, me, g, c.epoch, reachable, drawn, h, p);
      OnboardedHolds(Rotated(changed, me, g, c.epoch, reachable, drawn), g, c.added, reachable, h, p);
    } else {
      OnboardedHolds(changed, g, c.added, reachable, h, p);
    }
  }

  lemma LeaveHolds(t: Tables, me: Peer, g: GroupId, leaver: Peer, reachable: set<Peer>, drawn: nat, h: GroupId, p: Peer)
    requires Unhanded(t, drawn)
    ensures Holds(Left(t, me, g, leaver, reachable, drawn), h, p) <==>
              if h == g then p in Members(t, g) && p != leaver && p != me && p in reachable else Holds(t, h, p)
  {
    var out := t.(members := t.members[g := Without(Members(t, g), leaver)], theirKeys := t.theirKeys - {(g, leaver)});
    WithoutHas(Members(t, g), leaver);
    SameHolds(t, out, h, p);
    hide Holds, Rotated;
    RotatedHolds(out, me, g, EpochOf(t, g), reachable, drawn, h, p);
  }

  lemma AdditionHolds(t: Tables, me: Peer, g: GroupId, q: Peer, reachable: set<Peer>, h: GroupId, p: Peer)
    requires MayChange(t, me, g)
    ensures Holds(AddedMember(t, me, g, q, reachable), h, p) <==>
              Holds(t, h, p) || (h == g && g in t.mySenderKeys && p == q && p in reachable)
  {
    var c := Update(g, [q], [], t.groups[g].epoch + 1);
    var content := Announce(c, Signature(me, ToSign(GroupControl, Body(c))));
    var changed := Changed(t, g, [q], [], c.epoch);
    var told := changed.(sent := changed.sent + FanOut(Members(changed, g), {me}, reachable, g, content));
    AdditionIsOnboarding(t, me, g, q, reachable);
    hide *;
    SameHolds(t, changed, h, p);
    ToldHolds(changed, Members(changed, g), {me}, reachable, g, content, h, p);
    OnboardedHolds(told, g, [q], reachable, h, p);
  }

  lemma AdditionIsOnboarding(t: Tables, me: Peer, g: GroupId, q: Peer, reachable: set<Peer>)
    requires MayChange(t, me, g)
    ensures g in t.groups && t.groups[g].epoch + 1 < U64_LIMIT
    ensures var c := Update(g, [q], [], t.groups[g].epoch + 1);
            var content := Announce(c, Signature(me, ToSign(GroupControl, Body(c))));
            var changed := Changed(t, g, [q], [], c.epoch);
            var told := changed.(sent := changed.sent + FanOut(Members(changed, g), {me}, reachable, g, content));
            && AddedMember(t, me, g, q, reachable) == Onboarded(told, g, [q], reachable)
            && changed.sent == t.sent && changed.mySenderKeys == t.mySenderKeys && g in changed.groups
  {
    hide FanOut, Body, ToSign, Onboarded, WithoutAll, JoinedAll, KeysWithoutAll;
  }

  lemma RemovalHolds(t: Tables, me: Peer, g: GroupId, q: Peer, reachable: set<Peer>, drawn: nat, h: GroupId, p: Peer)
    requires MayChange(t, me, g) && Unhanded(t, drawn)
    ensures Holds(RemovedMember(t, me, g, q, reachable, drawn), h, p) <==>
              if h == g then p in Members(t, g) && p != q && p != me && p in reachable else Holds(t, h, p)
  {
    var c := Update(g, [], [q], t.groups[g].epoch + 1);
    var content := Announce(c, Signature(me, ToSign(GroupControl, Body(c))));
    var changed := Changed(t, g, [], [q], c.epoch);
    var told := changed.(sent := changed.sent + FanOut(Members(changed, g), {me, q}, reachable, g, content));
    RemovalIsRotation(t, me, g, q, reachable, drawn);
    hide *;
    ChangedMembers(t, g, [], [q], c.epoch);
    ToldUnhanded(changed, Members(changed, g), {me, q}, reachable, g, content, drawn);
    SameHolds(t, changed, h, p);
    ToldHolds(changed, Members(changed, g), {me, q}, reachable, g, content, h, p);
    RotatedHolds(told, me, g, c.epoch, reachable, drawn, h, p);
  }

  lemma RemovalIsRotation(t: Tables, me: Peer, g: GroupId, q: Peer, reachable: set<Peer>, drawn: nat)
    requires MayChange(t, me, g)
    ensures g in t.groups && t.groups[g].epoch + 1 < U64_LIMIT
    ensures var c := Update(g, [], [q], t.groups[g].epoch + 1);
            var content := Announce(c, Signature(me, ToSign(GroupControl, Body(c))));
            var changed := Changed(t, g, [], [q], c.epoch);
            var told := changed.(sent := changed.sent + FanOut(Members(changed, g), {me, q}, reachable, g, content));
            && RemovedMember(t, me, g, q, reachable, drawn) == Rotated(told, me, g, c.epoch, reachable, drawn)
            && Members(told, g) == Members(changed, g) && changed.sent == t.sent && changed.mySenderKeys == t.mySenderKeys
            && (Unhanded(t, drawn) <==> Unhanded(changed, drawn))
  {
    hide FanOut, Body, ToSign, Rotated, WithoutAll, JoinedAll, KeysWithoutAll;
  }

  lemma ToldUnhanded(t: Tables, ms: seq<Peer>, skip: set<Peer>, reachable: set<Peer>, g: GroupId, content: Content, drawn: nat)
    requires !content.Keys? && Unhanded(t, drawn)
    ensures Unhanded(t.(sent := t.sent + FanOut(ms, skip, reachable, g, content)), drawn)
  {
  }

  lemma SendingHolds(t: Tables, me: Peer, g: GroupId, plaintext: bytes, reachable: set<Peer>, drawn: nat, h: GroupId, p: Peer)
    requires g in t.groups && Unhanded(t, drawn)
    ensures Holds(SentText(t, me, g, plaintext, reachable, drawn), h, p) <==>
              if h == g && g !in t.mySenderKeys then p in Members(t, g) && p != me && p in reachable else Holds(t, h, p)
  {
    var after := SentText(t, me, g, plaintext, reachable, drawn);
    var chain := if g in t.mySenderKeys then t.mySenderKeys[g] else NewChain(drawn);
    var content := Text(Megolm.Encrypted(chain, plaintext, GroupAd(g, me)).1);
    var bundle := Megolm.CurrentBundle(chain);
    var texts := FanOut(Members(t, g), {me}, reachable, g, content);
    OthersReachNobody(after, Members(t, g), {me}, reachable, g, content);
    assert Unhanded(t, drawn);
    if g in t.mySenderKeys {
      assert after.sent == t.sent + texts;
      hide FanOut;
      HoldsWithNotes(t, after, texts, h, p);
    } else {
      var keys := FanOut(Members(t, g), {me}, reachable, g, Keys(bundle, t.groups[g].epoch));
      assert after.sent == t.sent + (keys + texts);
      hide FanOut;
      if h == g {
        HoldsWithChain(t, after, keys + texts, g, p, drawn);
        KeysReach(after, Members(t, g), {me}, reachable, g, bundle, t.groups[g].epoch, p);
      } else {
        HoldsWithNotes(t, after, keys + texts, h, p);
      }
    }
  }

  lemma ForgettingHolds(t: Tables, me: Peer, g: GroupId, reachable: set<Peer>, h: GroupId, p: Peer)
    ensures Holds(LeftGroup(t, me, g, reachable), h, p) <==> Holds(t, h, p) && !(h == g && g in t.groups)
  {
    if g in t.groups && h != g {
      var c := Leave(g, me, t.groups[g].epoch);
      var content := Announce(c, Signature(me, ToSign(GroupControl, Body(c))));
      var after := LeftGroup(t, me, g, reachable);
      var notes := FanOut(Members(t, g), {me}, reachable, g, content);
      OthersReachNobody(after, Members(t, g), {me}, reachable, g, content);
      hide FanOut, Body, ToSign;
      HoldsWithNotes(t, after, notes, h, p);
    }
  }

  lemma ControlHolds(t: Tables, me: Peer, e: Event, g: GroupId, p: Peer)
    requires e.ControlArrives? && FreshDraw(t, e)
    ensures Holds(After(t, me, e), g, p) <==> Hands(t, me, e, g, p) || (Holds(t, g, p) && !Draws(t, me, e, g))
  {
    hide Holds, Body, ToSign, FanOut, Changed, Rotated, Onboarded, Updated, Left;
    match e.c
    case Create(h, name, founder, members, epoch) => SameHolds(t, Created(t, h, name, founder, members, epoch), g, p);
    case Update(_, _, _, _) =>
      if UpdateAccepted(t, e.c, e.sig) {
        UpdateHolds(t, me, e.c, e.reachable, e.drawn, g, p);
      }
    case Leave(h, leaver, _) => LeaveHolds(t, me, h, leaver, e.reachable, e.drawn, g, p);
  }

  /** One event, exactly: afterwards a peer holds the chain in use if and only if the event hands it over, or
      it held it before and the event neither draws another nor does away with it. */
  lemma StepHolds(t: Tables, me: Peer, e: Event, g: GroupId, p: Peer)
    requires FreshDraw(t, e)
    ensures Holds(After(t, me, e), g, p) <==>
              Hands(t, me, e, g, p) || (Holds(t, g, p) && !Draws(t, me, e, g) && !Drops(t, e, g))
  {
    hide Holds, Body, ToSign, FanOut, Changed, Rotated, Onboarded, AddedMember, RemovedMember, SentText, LeftGroup, Controlled, MadeGroup;
    match e
    case ControlArrives(_, _, _, _, _) => ControlHolds(t, me, e, g, p);
    case KeysArrive(sender, h, bundle) => SameHolds(t, Distributed(t, sender, h, bundle), g, p);
    case TextArrives(sender, h, msg) => SameHolds(t, Received(t, sender, h, msg).0, g, p);
    case MakeGroup(h, name, invited, reachable) => MakingHolds(t, me, h, name, invited, reachable, g, p);
    case AddMember(h, q, reachable) =>
      if MayChange(t, me, h) {
        AdditionHolds(t, me, h, q, reachable, g, p);
      }
    case RemoveMember(h, q, reachable, drawn) =>
      if MayChange(t, me, h) {
        RemovalHolds(t, me, h, q, reachable, drawn, g, p);
      }
    case LeaveGroup(h, reachable) => ForgettingHolds(t, me, h, reachable, g, p);
    case SendText(h, plaintext, reachable, drawn) =>
      if h in t.groups {
        SendingHolds(t, me, h, plaintext, reachable, drawn, g, p);
      } else {
        assert SentText(t, me, h, plaintext, reachable, drawn) == t by { UnknownGroup(t, me, h, plaintext, reachable, drawn); }
      }
  }

  lemma UnknownGroup(t: Tables, me: Peer, g: GroupId, plaintext: bytes, reachable: set<Peer>, drawn: nat)
    requires g !in t.groups
    ensures SentText(t, me, g, plaintext, reachable, drawn) == t
  {
  }

  lemma MakingHolds(t: Tables, me: Peer, h: GroupId, name: bytes, invited: seq<Peer>, reachable: set<Peer>, g: GroupId, p: Peer)
    ensures Holds(MadeGroup(t, me, h, name, invited, reachable), g, p) <==> Holds(t, g, p)
  {
    var members := if me in invited then invited else [me] + invited;
    var c := Create(h, name, me, members, 0);
    var made := Created(t, h, name, me, members, 0);
    SameHolds(t, made, g, p);
    hide Holds, FanOut, Body, ToSign, Created;
    ToldHolds(made, members, {me}, reachable, h, Announce(c, Signature(me, ToSign(GroupControl, Body(c)))), g, p);
  }

  // ----- over runs -----

  /** What has been handed out of the chain in use lies on it, at indices it has reached. */
  ghost predicate BundlesLie(t: Tables) {
    forall n | n in t.sent && Current(t, n) :: OfChain(n.content.bundle, t.mySenderKeys[n.group])
  }

  /** No chain that is sent under runs out of indices. */
  ghost predicate Counted(t: Tables, e: Event) {
    e.SendText? && e.g in t.mySenderKeys ==> t.mySenderKeys[e.g].index + 1 < U32_LIMIT
  }

  /** Keys are drawn afresh, and indices do not run out. */
  ghost predicate Fresh(t: Tables, me: Peer, events: seq<Event>)
    decreases |events|
  {
    events != [] ==> FreshDraw(t, events[0]) && Counted(t, events[0]) && Fresh(After(t, me, events[0]), me, events[1..])
  }

  lemma BundlesLieWithNotes(t: Tables, after: Tables, notes: seq<Note>)
    requires BundlesLie(t) && after.sent == t.sent + notes
    requires forall g | g in after.mySenderKeys && g in t.mySenderKeys :: after.mySenderKeys[g] == t.mySenderKeys[g]
    requires after.mySenderKeys.Keys <= t.mySenderKeys.Keys
    requires forall n | n in notes && Current(after, n) :: OfChain(n.content.bundle, after.mySenderKeys[n.group])
    ensures BundlesLie(after)
  {
    forall n | n in after.sent && Current(after, n) ensures OfChain(n.content.bundle, after.mySenderKeys[n.group]) {
      assert n in t.sent ==> Current(t, n);
    }
  }

  lemma CurrentBundleLies(chain: Megolm.Sender)
    ensures OfChain(Megolm.CurrentBundle(chain), chain)
  {
  }

  lemma RotationLies(t: Tables, me: Peer, g: GroupId, epoch: u64, reachable: set<Peer>, drawn: nat)
    requires BundlesLie(t) && Unhanded(t, drawn)
    ensures BundlesLie(Rotated(t, me, g, epoch, reachable, drawn))
  {
    var after := Rotated(t, me, g, epoch, reachable, drawn);
    CurrentBundleLies(NewChain(drawn));
    forall n | n in after.sent && Current(after, n) ensures OfChain(n.content.bundle, after.mySenderKeys[n.group]) {
      if n in t.sent {
        assert !Handed(n, drawn);
        assert n.group != g && Current(t, n);
      }
    }
  }

  lemma OnboardingLies(t: Tables, g: GroupId, ps: seq<Peer>, reachable: set<Peer>)
    requires BundlesLie(t)
    ensures BundlesLie(Onboarded(t, g, ps, reachable))
  {
    if g in t.groups && g in t.mySenderKeys {
      CurrentBundleLies(t.mySenderKeys[g]);
      BundlesLieWithNotes(t, Onboarded(t, g, ps, reachable),
                          FanOut(ps, {}, reachable, g, Keys(Megolm.CurrentBundle(t.mySenderKeys[g]), t.groups[g].epoch)));
    }
  }

  lemma TellingLies(t: Tables, after: Tables, ms: seq<Peer>, skip: set<Peer>, reachable: set<Peer>, g: GroupId, content: Content)
    requires BundlesLie(t) && !content.Keys? && after.mySenderKeys == t.mySenderKeys
    requires after.sent == t.sent + FanOut(ms, skip, reachable, g, content)
    ensures BundlesLie(after)
  {
    OthersReachNobody(after, ms, skip, reachable, g, content);
    BundlesLieWithNotes(t, after, FanOut(ms, skip, reachable, g, content));
  }

  lemma SameLies(t: Tables, after: Tables)
    requires BundlesLie(t) && after.sent == t.sent && after.mySenderKeys == t.mySenderKeys
    ensures BundlesLie(after)
  {
    forall n | n in after.sent && Current(after, n) ensures OfChain(n.content.bundle, after.mySenderKeys[n.group]) {
      assert Current(t, n);
    }
  }

  lemma ControlLies(t: Tables, me: Peer, e: Event)
    requires e.ControlArrives? && BundlesLie(t) && FreshDraw(t, e)
    ensures BundlesLie(After(t, me, e))
  {
    hide Body, ToSign, FanOut, Rotated, Onboarded, BundlesLie, JoinedAll, WithoutAll, KeysWithoutAll;
    match e.c
    case Create(h, name, founder, members, epoch) => SameLies(t, Created(t, h, name, founder, members, epoch));
    case Update(g, added, removed, epoch) =>
      if UpdateAccepted(t, e.c, e.sig) {
        var changed := Changed(t, g, added, removed, epoch);
        SameLies(t, changed);
        if removed != [] {
          RotationLies(changed, me, g, epoch, e.reachable, e.drawn);
          OnboardingLies(Rotated(changed, me, g, epoch, e.reachable, e.drawn), g, added, e.reachable);
        } else {
          OnboardingLies(changed, g, added, e.reachable);
        }
      }
    case Leave(g, leaver, _) =>
      var out := t.(members := t.members[g := Without(Members(t, g), leaver)], theirKeys := t.theirKeys - {(g, leaver)});
      SameLies(t, out);
      RotationLies(out, me, g, EpochOf(t, g), e.reachable, e.drawn);
  }

  lemma AdditionLies(t: Tables, me: Peer, g: GroupId, q: Peer, reachable: set<Peer>)
    requires MayChange(t, me, g) && BundlesLie(t)
    ensures BundlesLie(AddedMember(t, me, g, q, reachable))
  {
    AdditionIsOnboarding(t, me, g, q, reachable);
    hide *;
    var c := Update(g, [q], [], t.groups[g].epoch + 1);
    var content := Announce(c, Signature(me, ToSign(GroupControl, Body(c))));
    var changed := Changed(t, g, [q], [], c.epoch);
    var told := changed.(sent := changed.sent + FanOut(Members(changed, g), {me}, reachable, g, content));
    SameLies(t, changed);
    TellingLies(changed, told, Members(changed, g), {me}, reachable, g, content);
    OnboardingLies(told, g, [q], reachable);
  }

  lemma RemovalLies(t: Tables, me: Peer, g: GroupId, q: Peer, reachable: set<Peer>, drawn: nat)
    requires MayChange(t, me, g) && BundlesLie(t) && Unhanded(t, drawn)
    ensures BundlesLie(RemovedMember(t, me, g, q, reachable, drawn))
  {
    RemovalIsRotation(t, me, g, q, reachable, drawn);
    hide *;
    var c := Update(g, [], [q], t.groups[g].epoch + 1);
    var content := Announce(c, Signature(me, ToSign(GroupControl, Body(c))));
    var changed := Changed(t, g, [], [q], c.epoch);
    var told := changed.(sent := changed.sent + FanOut(Members(changed, g), {me, q}, reachable, g, content));
    SameLies(t, changed);
    TellingLies(changed, told, Members(changed, g), {me, q}, reachable, g, content);
    ToldUnhanded(changed, Members(changed, g), {me, q}, reachable, g, content, drawn);
    RotationLies(told, me, g, c.epoch, reachable, drawn);
  }

  lemma SendingLies(t: Tables, me: Peer, g: GroupId, plaintext: bytes, reachable: set<Peer>, drawn: nat)
    requires BundlesLie(t) && Unhanded(t, drawn) && (g in t.mySenderKeys ==> t.mySenderKeys[g].index + 1 < U32_LIMIT)
    ensures BundlesLie(SentText(t, me, g, plaintext, reachable, drawn))
  {
    var after := SentText(t, me, g, plaintext, reachable, drawn);
    if g in t.groups {
      var chain := if g in t.mySenderKeys then t.mySenderKeys[g] else NewChain(drawn);
      forall n | n in after.sent && Current(after, n) ensures OfChain(n.content.bundle, after.mySenderKeys[n.group]) {
        if n in t.sent {
          assert !Handed(n, drawn);
          assert Current(t, n);
        } else {
          assert n.content.bundle == Megolm.CurrentBundle(chain) && n.group == g;
          assert Advance(chain.chainKey, 1) == Next(Advance(chain.chainKey, 0));
        }
      }
    }
  }

  lemma StepLies(t: Tables, me: Peer, e: Event)
    requires BundlesLie(t) && FreshDraw(t, e) && Counted(t, e)
    ensures BundlesLie(After(t, me, e))
  {
    hide Body, ToSign, FanOut, BundlesLie, JoinedAll, AddedMember, RemovedMember, SentText, Controlled;
    match e
    case ControlArrives(_, _, _, _, _) => ControlLies(t, me, e);
    case KeysArrive(sender, h, bundle) => SameLies(t, Distributed(t, sender, h, bundle));
    case TextArrives(sender, h, msg) => SameLies(t, Received(t, sender, h, msg).0);
    case MakeGroup(h, name, invited, reachable) =>
      var members := if me in invited then invited else [me] + invited;
      var c := Create(h, name, me, members, 0);
      SameLies(t, Created(t, h, name, me, members, 0));
      TellingLies(Created(t, h, name, me, members, 0), MadeGroup(t, me, h, name, invited, reachable), members, {me}, reachable, h,
                  Announce(c, Signature(me, ToSign(GroupControl, Body(c)))));
    case AddMember(h, q, reachable) =>
      if MayChange(t, me, h) {
        AdditionLies(t, me, h, q, reachable);
      }
    case RemoveMember(h, q, reachable, drawn) =>
      if MayChange(t, me, h) {
        RemovalLies(t, me, h, q, reachable, drawn);
      }
    case LeaveGroup(h, reachable) => ForgettingLies(t, me, h, reachable);
    case SendText(h, plaintext, reachable, drawn) => SendingLies(t, me, h, plaintext, reachable, drawn);
  }

  lemma ForgettingLies(t: Tables, me: Peer, g: GroupId, reachable: set<Peer>)
    requires BundlesLie(t)
    ensures BundlesLie(LeftGroup(t, me, g, reachable))
  {
    if g in t.groups {
      var c := Leave(g, me, t.groups[g].epoch);
      var content := Announce(c, Signature(me, ToSign(GroupControl, Body(c))));
      var after := LeftGroup(t, me, g, reachable);
      OthersReachNobody(after, Members(t, g), {me}, reachable, g, content);
      BundlesLieWithNotes(t, after, FanOut(Members(t, g), {me}, reachable, g, content));
    }
  }

  lemma {:induction false} AfterAllSplits(t: Tables, me: Peer, events: seq<Event>, last: Event)
    ensures AfterAll(t, me, events + [last]) == After(AfterAll(t, me, events), me, last)
    decreases |events|
  {
    hide After;
    if events == [] {
      assert events + [last] == [last] && [last][1..] == [];
    } else {
      assert (events + [last])[1..] == events[1..] + [last];
      AfterAllSplits(After(t, me, events[0]), me, events[1..], last);
    }
  }

  lemma {:induction false} FreshSplits(t: Tables, me: Peer, events: seq<Event>, last: Event)
    requires Fresh(t, me, events + [last])
    ensures Fresh(t, me, events) && FreshDraw(AfterAll(t, me, events), last) && Counted(AfterAll(t, me, events), last)
    decreases |events|
  {
    hide After, FreshDraw, Counted;
    if events == [] {
      assert (events + [last])[0] == last;
    } else {
      assert (events + [last])[1..] == events[1..] + [last] && (events + [last])[0] == events[0];
      FreshSplits(After(t, me, events[0]), me, events[1..], last);
    }
  }

  /** Event `k` of the run handed `p` the chain that is in use at the end: no later event drew another. */
  ghost predicate HandedAt(t: Tables, me: Peer, events: seq<Event>, g: GroupId, p: Peer, k: nat) {
    && k < |events| && Hands(AfterAll(t, me, events[..k]), me, events[k], g, p)
    && forall j | k < j < |events| ::
         var then_ := AfterAll(t, me, events[..j]);
         !Draws(then_, me, events[j], g) && !Drops(then_, events[j], g)
  }

  lemma HandedEarlier(t: Tables, me: Peer, events: seq<Event>, last: Event, g: GroupId, p: Peer, k: nat)
    requires k < |events|
    ensures HandedAt(t, me, events + [last], g, p, k) <==>
              HandedAt(t, me, events, g, p, k) &&
              !Draws(AfterAll(t, me, events), me, last, g) && !Drops(AfterAll(t, me, events), last, g)
  {
    var all := events + [last];
    hide Hands, Draws, Drops, AfterAll;
    assert forall j | 0 <= j <= |events| :: all[..j] == events[..j];
    assert all[..|events|] == events && all[|events|] == last;
    if HandedAt(t, me, all, g, p, k) {
      assert !Draws(AfterAll(t, me, all[..|events|]), me, all[|events|], g);
      forall j | k < j < |events|
        ensures !Draws(AfterAll(t, me, events[..j]), me, events[j], g) && !Drops(AfterAll(t, me, events[..j]), events[j], g)
      {
        assert all[..j] == events[..j] && all[j] == events[j];
        assert !Draws(AfterAll(t, me, all[..j]), me, all[j], g);
      }
    }
  }

  /** Whole runs of a node: at the end a peer holds the chain in use if and only if some event handed it
      over, and no later one drew another or did away with it. */
  lemma {:induction false} RunHolds(me: Peer, events: seq<Event>, g: GroupId, p: Peer)
    requires Fresh(EMPTY, me, events)
    ensures BundlesLie(AfterAll(EMPTY, me, events)) && MembersOnce(AfterAll(EMPTY, me, events))
    ensures Holds(AfterAll(EMPTY, me, events), g, p) <==> exists k :: HandedAt(EMPTY, me, events, g, p, k)
    decreases |events|
  {
    hide Holds, HandedAt, After, BundlesLie, MembersOnce, FreshDraw, Counted, Fresh;
    if events == [] {
      NothingYet(me, g, p);
    } else {
      var front, last := events[..|events| - 1], events[|events| - 1];
      assert events == front + [last];
      FreshSplits(EMPTY, me, front, last);
      RunHolds(me, front, g, p);
      RunHoldsLast(me, front, last, g, p);
    }
  }

  lemma NothingYet(me: Peer, g: GroupId, p: Peer)
    ensures AfterAll(EMPTY, me, []) == EMPTY && BundlesLie(EMPTY) && MembersOnce(EMPTY)
    ensures !Holds(EMPTY, g, p) && !exists k :: HandedAt(EMPTY, me, [], g, p, k)
  {
  }

  lemma RunHoldsLast(me: Peer, front: seq<Event>, last: Event, g: GroupId, p: Peer)
    requires var t := AfterAll(EMPTY, me, front);
             && FreshDraw(t, last) && Counted(t, last) && BundlesLie(t) && MembersOnce(t)
             && (Holds(t, g, p) <==> exists k :: HandedAt(EMPTY, me, front, g, p, k))
    ensures var end := AfterAll(EMPTY, me, front + [last]);
            && BundlesLie(end) && MembersOnce(end)
            && (Holds(end, g, p) <==> exists k :: HandedAt(EMPTY, me, front + [last], g, p, k))
  {
    hide Holds, Hands, Draws, Drops, After, BundlesLie, MembersOnce, FreshDraw, Counted;
    var t, all := AfterAll(EMPTY, me, front), front + [last];
    AfterAllSplits(EMPTY, me, front, last);
    StepHolds(t, me, last, g, p);
    StepLies(t, me, last);
    StepKeepsMembersOnce(t, me, last);
    assert all[..|front|] == front && all[|front|] == last;
    if Hands(t, me, last, g, p) {
      assert HandedAt(EMPTY, me, all, g, p, |front|);
    } else if k: nat :| HandedAt(EMPTY, me, front, g, p, k) {
      HandedEarlier(EMPTY, me, front, last, g, p, k);
    }
    if k: nat :| HandedAt(EMPTY, me, all, g, p, k) {
      if k < |front| {
        HandedEarlier(EMPTY, me, front, last, g, p, k);
      }
    }
  }

  /** The peer was handed the bundle before it is sent the text, and can read the text with it. */
  ghost predicate KeyedBefore(sent: seq<Note>, g: GroupId, p: Peer, msg: Megolm.GroupMessage, chain: Megolm.Sender) {
    exists i, j :: 0 <= i < j < |sent| && sent[j] == Note(p, g, Text(msg)) && sent[i].to == p && sent[i].group == g &&
      sent[i].content.Keys? && OfChain(sent[i].content.bundle, chain)
  }

  /** After any run, a text to a member that can be reached comes after a bundle of the same chain, at an index
      no later, if and only if the chain is drawn for this text, or some event handed it over since it was
      drawn: the member could be reached when it was drawn, or when it was added. */
  lemma TextsAreKeyed(me: Peer, events: seq<Event>, g: GroupId, plaintext: bytes, reachable: set<Peer>, drawn: nat, p: Peer)
    requires Fresh(EMPTY, me, events + [SendText(g, plaintext, reachable, drawn)])
    requires var t := AfterAll(EMPTY, me, events);
             g in t.groups && p in Members(t, g) && p != me && p in reachable
    ensures var t := AfterAll(EMPTY, me, events);
            var chain := if g in t.mySenderKeys then t.mySenderKeys[g] else NewChain(drawn);
            var msg := Megolm.Encrypted(chain, plaintext, GroupAd(g, me)).1;
            KeyedBefore(SentText(t, me, g, plaintext, reachable, drawn).sent, g, p, msg, chain) <==>
              g !in t.mySenderKeys || exists k :: HandedAt(EMPTY, me, events, g, p, k)
  {
    var e := SendText(g, plaintext, reachable, drawn);
    var t := AfterAll(EMPTY, me, events);
    FreshSplits(EMPTY, me, events, e);
    RunHolds(me, events, g, p);
    hide HandedAt, AfterAll, Fresh, MembersOnce;
    if g in t.mySenderKeys {
      LaterTextIsKeyed(t, me, g, plaintext, reachable, drawn, p);
    } else {
      FirstTextIsKeyed(t, me, g, plaintext, reachable, drawn, p);
    }
  }

  lemma LaterTextIsKeyed(t: Tables, me: Peer, g: GroupId, plaintext: bytes, reachable: set<Peer>, drawn: nat, p: Peer)
    requires g in t.groups && p in Members(t, g) && p != me && p in reachable && g in t.mySenderKeys && BundlesLie(t)
    ensures var chain := t.mySenderKeys[g];
            var msg := Megolm.Encrypted(chain, plaintext, GroupAd(g, me)).1;
            KeyedBefore(SentText(t, me, g, plaintext, reachable, drawn).sent, g, p, msg, chain) <==> Holds(t, g, p)
  {
    var chain := t.mySenderKeys[g];
    var msg := Megolm.Encrypted(chain, plaintext, GroupAd(g, me)).1;
    var texts := FanOut(Members(t, g), {me}, reachable, g, Text(msg));
    var sent := SentText(t, me, g, plaintext, reachable, drawn).sent;
    assert sent == t.sent + texts;
    assert Note(p, g, Text(msg)) in texts && forall n | n in texts :: n.content.Text?;
    hide SentText, FanOut, Megolm.Encrypted, GroupAd;
    KeyedIsHeld(t, texts, g, p, msg);
  }

  /** A chain's bundle among what was sent before. */
  lemma KeyedIsHeld(t: Tables, texts: seq<Note>, g: GroupId, p: Peer, msg: Megolm.GroupMessage)
    requires g in t.mySenderKeys && BundlesLie(t) && Note(p, g, Text(msg)) in texts && forall n | n in texts :: n.content.Text?
    ensures KeyedBefore(t.sent + texts, g, p, msg, t.mySenderKeys[g]) <==> Holds(t, g, p)
  {
    var chain, sent := t.mySenderKeys[g], t.sent + texts;
    if Holds(t, g, p) {
      var n :| n in t.sent && Current(t, n) && n.group == g && n.to == p;
      var i :| 0 <= i < |t.sent| && t.sent[i] == n;
      var j :| 0 <= j < |texts| && texts[j] == Note(p, g, Text(msg));
      assert sent[i] == n && sent[|t.sent| + j] == texts[j];
    }
    if KeyedBefore(sent, g, p, msg, chain) {
      var i, j :| 0 <= i < j < |sent| && sent[j] == Note(p, g, Text(msg)) && sent[i].to == p && sent[i].group == g &&
        sent[i].content.Keys? && OfChain(sent[i].content.bundle, chain);
      assert forall n | n in sent && n.content.Keys? :: n in t.sent;
      assert sent[i] in t.sent && Current(t, sent[i]);
    }
  }

  lemma FirstTextIsKeyed(t: Tables, me: Peer, g: GroupId, plaintext: bytes, reachable: set<Peer>, drawn: nat, p: Peer)
    requires g in t.groups && p in Members(t, g) && p != me && p in reachable && g !in t.mySenderKeys
    ensures var msg := Megolm.Encrypted(NewChain(drawn), plaintext, GroupAd(g, me)).1;
            KeyedBefore(SentText(t, me, g, plaintext, reachable, drawn).sent, g, p, msg, NewChain(drawn))
  {
    FirstTextNotes(t, me, g, plaintext, reachable, drawn);
    var keys := Keys(Megolm.CurrentBundle(NewChain(drawn)), t.groups[g].epoch);
    var text := Text(Megolm.Encrypted(NewChain(drawn), plaintext, GroupAd(g, me)).1);
    var before, after := FanOut(Members(t, g), {me}, reachable, g, keys), FanOut(Members(t, g), {me}, reachable, g, text);
    var sent := SentText(t, me, g, plaintext, reachable, drawn).sent;
    CurrentBundleLies(NewChain(drawn));
    assert Note(p, g, keys) in before && Note(p, g, text) in after;
    hide *;
    OneThenTheOther(sent, |t.sent|, before, after, Note(p, g, keys), Note(p, g, text));
    var i, j :| 0 <= i < j < |sent| && sent[i] == Note(p, g, keys) && sent[j] == Note(p, g, text);
    BundleThenText(sent, g, p, keys, Megolm.Encrypted(NewChain(drawn), plaintext, GroupAd(g, me)).1, NewChain(drawn), i, j);
  }

  lemma OneThenTheOther(sent: seq<Note>, from: nat, before: seq<Note>, after: seq<Note>, m: Note, n: Note)
    requires from <= |sent| && sent[from..] == before + after && m in before && n in after
    ensures exists i, j :: 0 <= i < j < |sent| && sent[i] == m && sent[j] == n
  {
    var i :| 0 <= i < |before| && before[i] == m;
    var j :| 0 <= j < |after| && after[j] == n;
    assert sent[from + i] == sent[from..][i] == m && sent[from + |before| + j] == sent[from..][|before| + j] == n;
  }

  lemma BundleThenText(sent: seq<Note>, g: GroupId, p: Peer, keys: Content, msg: Megolm.GroupMessage, chain: Megolm.Sender,
                       i: nat, j: nat)
    requires i < j < |sent| && sent[i] == Note(p, g, keys) && sent[j] == Note(p, g, Text(msg))
    requires keys.Keys? && OfChain(keys.bundle, chain)
    ensures KeyedBefore(sent, g, p, msg, chain)
  {
  }

  // ----- leaving -----

  /** What a leave does. Each other member that can be reached is told; a node that takes the notice in, member
      or not, strikes out the leaver and its chain and nobody else, draws a chain of its own, and hands that
      to the rest: never to the leaver. */
  lemma LeavingReachesTheRest(t: Tables, me: Peer, g: GroupId, reachable: set<Peer>, p: Peer, u: Tables, reachable': set<Peer>, drawn: nat, q: Peer)
    requires g in t.groups && p in Members(t, g) && p != me && p in reachable && Unhanded(u, drawn)
    ensures var c := Leave(g, me, t.groups[g].epoch);
            var sig := Signature(me, ToSign(GroupControl, Body(c)));
            var after := Controlled(u, p, me, c, sig, reachable', drawn);
            && |t.sent| <= |LeftGroup(t, me, g, reachable).sent|
            && Note(p, g, Announce(c, sig)) in LeftGroup(t, me, g, reachable).sent[|t.sent|..]
            && (q in Members(after, g) <==> q in Members(u, g) && q != me)
            && (g, me) !in after.theirKeys && after.groups == u.groups
            && g in after.mySenderKeys && after.mySenderKeys[g] == NewChain(drawn)
            && (Holds(after, g, q) <==> q in Members(u, g) && q != me && q != p && q in reachable')
  {
    var c := Leave(g, me, t.groups[g].epoch);
    var sig := Signature(me, ToSign(GroupControl, Body(c)));
    var notes := FanOut(Members(t, g), {me}, reachable, g, Announce(c, sig));
    assert LeftGroup(t, me, g, reachable).sent[|t.sent|..] == notes;
    assert Note(p, g, Announce(c, sig)) in notes;
    WithoutHas(Members(u, g), me);
    LeaveHolds(u, p, g, me, reachable', drawn, g, q);
    hide Holds, FanOut, Body, ToSign, Without;
  }

  // ----- one group at a time -----

  function About(e: Event): GroupId {
    match e
    case ControlArrives(_, c, _, _, _) => c.groupId
    case _ => e.g
  }

  /** What is kept of one group. */
  ghost predicate SameRows(t: Tables, after: Tables, h: GroupId) {
    && (h in after.groups <==> h in t.groups) && (h in t.groups ==> after.groups[h] == t.groups[h])
    && Members(after, h) == Members(t, h)
    && (h in after.mySenderKeys <==> h in t.mySenderKeys) && (h in t.mySenderKeys ==> after.mySenderKeys[h] == t.mySenderKeys[h])
    && (forall k | k in t.theirKeys && k.0 == h :: k in after.theirKeys && after.theirKeys[k] == t.theirKeys[k])
    && (forall k | k in after.theirKeys && k.0 == h :: k in t.theirKeys)
  }

  lemma ChangeTouchesOne(t: Tables, g: GroupId, added: seq<Peer>, removed: seq<Peer>, epoch: u64, h: GroupId)
    requires g in t.groups && h != g
    ensures var after := Changed(t, g, added, removed, epoch); SameRows(t, after, h) && after.sent == t.sent
  {
    KeysWithoutAllHas(t.theirKeys, g, removed);
  }

  lemma RotationTouchesOne(t: Tables, me: Peer, g: GroupId, epoch: u64, reachable: set<Peer>, drawn: nat, h: GroupId)
    requires h != g
    ensures SameRows(t, Rotated(t, me, g, epoch, reachable, drawn), h)
  {
    hide FanOut;
  }

  /** Only notes are added. */
  lemma NotesTouchNothing(t: Tables, after: Tables, h: GroupId)
    requires after == t.(sent := after.sent)
    ensures SameRows(t, after, h)
  {
  }

  lemma RowsJoin(a: Tables, b: Tables, c: Tables, h: GroupId)
    requires SameRows(a, b, h) && SameRows(b, c, h)
    ensures SameRows(a, c, h)
  {
  }

  lemma ControlTouchesOne(t: Tables, me: Peer, e: Event, h: GroupId)
    requires e.ControlArrives? && h != e.c.groupId
    ensures SameRows(t, After(t, me, e), h)
  {
    hide Body, ToSign, FanOut, JoinedAll, WithoutAll, Without, KeysWithoutAll, Changed, Rotated, SameRows;
    NotesTouchNothing(t, t, h);
    match e.c
    case Create(g, name, founder, members, epoch) => CreationTouchesOne(t, g, name, founder, members, epoch, h);
    case Update(g, added, removed, epoch) =>
      if UpdateAccepted(t, e.c, e.sig) {
        var changed := Changed(t, g, added, removed, epoch);
        ChangeTouchesOne(t, g, added, removed, epoch, h);
        var rotated := if removed != [] then Rotated(changed, me, g, epoch, e.reachable, e.drawn) else changed;
        RotationTouchesOne(changed, me, g, epoch, e.reachable, e.drawn, h);
        NotesTouchNothing(changed, changed, h);
        RowsJoin(t, changed, rotated, h);
        NotesTouchNothing(rotated, Onboarded(rotated, g, added, e.reachable), h);
        RowsJoin(t, rotated, Onboarded(rotated, g, added, e.reachable), h);
      }
    case Leave(g, leaver, _) =>
      var out := t.(members := t.members[g := Without(Members(t, g), leaver)], theirKeys := t.theirKeys - {(g, leaver)});
      StrikingTouchesOne(t, g, leaver, h);
      RotationTouchesOne(out, me, g, EpochOf(t, g), e.reachable, e.drawn, h);
      RowsJoin(t, out, Rotated(out, me, g, EpochOf(t, g), e.reachable, e.drawn), h);
  }

  lemma CreationTouchesOne(t: Tables, g: GroupId, name: bytes, founder: Peer, members: seq<Peer>, epoch: u64, h: GroupId)
    requires h != g
    ensures SameRows(t, Created(t, g, name, founder, members, epoch), h)
  {
    hide JoinedAll;
  }

  lemma StrikingTouchesOne(t: Tables, g: GroupId, leaver: Peer, h: GroupId)
    requires h != g
    ensures SameRows(t, t.(members := t.members[g := Without(Members(t, g), leaver)], theirKeys := t.theirKeys - {(g, leaver)}), h)
  {
    hide Without;
  }

  lemma AdditionTouchesOne(t: Tables, me: Peer, g: GroupId, q: Peer, reachable: set<Peer>, h: GroupId)
    requires MayChange(t, me, g) && h != g
    ensures SameRows(t, AddedMember(t, me, g, q, reachable), h)
  {
    AdditionIsOnboarding(t, me, g, q, reachable);
    ChangeTouchesOne(t, g, [q], [], t.groups[g].epoch + 1, h);
    hide AddedMember, Changed, SameRows, FanOut, Body, ToSign;
    var changed, after := Changed(t, g, [q], [], t.groups[g].epoch + 1), AddedMember(t, me, g, q, reachable);
    NotesTouchNothing(changed, after, h);
    RowsJoin(t, changed, after, h);
  }

  lemma RemovalTouchesOne(t: Tables, me: Peer, g: GroupId, q: Peer, reachable: set<Peer>, drawn: nat, h: GroupId)
    requires MayChange(t, me, g) && h != g
    ensures SameRows(t, RemovedMember(t, me, g, q, reachable, drawn), h)
  {
    RemovalIsRotation(t, me, g, q, reachable, drawn);
    var c := Update(g, [], [q], t.groups[g].epoch + 1);
    var changed := Changed(t, g, [], [q], c.epoch);
    var told := changed.(sent := changed.sent + FanOut(Members(changed, g), {me, q}, reachable, g,
                                                       Announce(c, Signature(me, ToSign(GroupControl, Body(c))))));
    hide *;
    ChangeTouchesOne(t, g, [], [q], c.epoch, h);
    NotesTouchNothing(changed, told, h);
    RotationTouchesOne(told, me, g, c.epoch, reachable, drawn, h);
    RowsJoin(t, changed, told, h);
    RowsJoin(t, told, RemovedMember(t, me, g, q, reachable, drawn), h);
  }

  lemma SendTouchesOne(t: Tables, me: Peer, e: Event, h: GroupId)
    requires h != About(e) && (e.SendText? || e.LeaveGroup? || e.MakeGroup?)
    ensures SameRows(t, After(t, me, e), h)
  {
    hide Body, ToSign, FanOut, JoinedAll, NewChain, Megolm.Encrypted, Megolm.CurrentBundle, GroupAd;
  }

  lemma ArrivalTouchesOne(t: Tables, me: Peer, e: Event, h: GroupId)
    requires h != About(e) && (e.KeysArrive? || e.TextArrives?)
    ensures SameRows(t, After(t, me, e), h)
  {
    hide Megolm.Decrypted, Megolm.FromBundle, GroupAd;
  }

  /** Nothing that happens in one group touches another: its row, members and chains stay. */
  lemma StepTouchesOneGroup(t: Tables, me: Peer, e: Event, h: GroupId)
    requires h != About(e)
    ensures SameRows(t, After(t, me, e), h)
  {
    hide SameRows, AddedMember, RemovedMember, Controlled, SentText, LeftGroup, MadeGroup, Distributed, Received;
    match e
    case ControlArrives(_, _, _, _, _) => ControlTouchesOne(t, me, e, h);
    case AddMember(g, p, reachable) =>
      if MayChange(t, me, g) {
        AdditionTouchesOne(t, me, g, p, reachable, h);
      } else {
        NotesTouchNothing(t, t, h);
      }
    case RemoveMember(g, p, reachable, drawn) =>
      if MayChange(t, me, g) {
        RemovalTouchesOne(t, me, g, p, reachable, drawn, h);
      } else {
        NotesTouchNothing(t, t, h);
      }
    case KeysArrive(_, _, _) => ArrivalTouchesOne(t, me, e, h);
    case TextArrives(_, _, _) => ArrivalTouchesOne(t, me, e, h);
    case _ => SendTouchesOne(t, me, e, h);
  }
}
