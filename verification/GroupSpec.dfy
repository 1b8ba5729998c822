// Group state on values: what each control message, group message and local command does to the tables,
// and what every run keeps.
module GroupSpec {
  import opened Wrappers
  import opened Words
  import opened Symbolic
  import opened Signing
  import opened GroupBytes
  import Megolm = MegolmSpec

  datatype Group = Group(name: bytes, founder: Peer, epoch: u64)

  /** What is handed to one member over the pairwise session. */
  datatype Note = Note(to: Peer, group: GroupId, content: Content)
  datatype Content =
    | Keys(bundle: Megolm.Bundle, epoch: u64)
    | Announce(control: Control, sig: Signature)
    | Text(msg: Megolm.GroupMessage)

  datatype Tables = Tables(
    groups: map<GroupId, Group>,
    members: map<GroupId, seq<Peer>>,
    theirKeys: map<(GroupId, Peer), Megolm.Receiver>,
    mySenderKeys: map<GroupId, Megolm.Sender>,
    sent: seq<Note>)

  // ----- the tables -----

  function Members(t: Tables, g: GroupId): seq<Peer> {
    if g in t.members then t.members[g] else []
  }

  function Joined(ms: seq<Peer>, p: Peer): seq<Peer> {
    if p in ms then ms else ms + [p]
  }

  function JoinedAll(ms: seq<Peer>, ps: seq<Peer>): seq<Peer> {
    if ps == [] then ms else Joined(JoinedAll(ms, ps[..|ps| - 1]), ps[|ps| - 1])
  }

  function Without(ms: seq<Peer>, p: Peer): seq<Peer> {
    if ms == [] then [] else (if ms[0] == p then [] else [ms[0]]) + Without(ms[1..], p)
  }

  lemma WithoutSplits(ms: seq<Peer>, i: nat, p: Peer)
    requires i < |ms|
    ensures Without(ms[i..], p) == (if ms[i] == p then [] else [ms[i]]) + Without(ms[i + 1..], p)
  {
    assert ms[i..][1..] == ms[i + 1..];
  }

  lemma NoOneWithout(ms: seq<Peer>, p: Peer)
    ensures Without(ms[|ms|..], p) == []
  {
  }

  function WithoutAll(ms: seq<Peer>, ps: seq<Peer>): seq<Peer> {
    if ps == [] then ms else Without(WithoutAll(ms, ps[..|ps| - 1]), ps[|ps| - 1])
  }

  function KeysWithoutAll(keys: map<(GroupId, Peer), Megolm.Receiver>, g: GroupId, ps: seq<Peer>): map<(GroupId,
                        Peer), Megolm.Receiver> {
    if ps == [] then keys else KeysWithoutAll(keys, g, ps[..|ps| - 1]) - {(g, ps[|ps| - 1])}
  }

  /** One note to each reachable peer of `ms` that is not in `skip`; a peer is reachable when its id parses
      and a session with it exists. */
  function FanOut(ms: seq<Peer>, skip: set<Peer>, reachable: set<Peer>, g: GroupId,
                  content: Content): (notes: seq<Note>)
    ensures forall n :: n in notes <==> n.to in ms && n.to !in skip && n.to in reachable && n.group == g && n.content == content
  {
    if ms == [] then []
    else (if ms[0] in skip || ms[0] !in reachable then [] else [Note(ms[0], g, content)]) + FanOut(ms[1..], skip, reachable, g, content)
  }

  lemma FanOutSplits(ms: seq<Peer>, i: nat, skip: set<Peer>, reachable: set<Peer>, g: GroupId, content: Content)
    requires i < |ms|
    ensures FanOut(ms[i..], skip, reachable, g, content) ==
              (if ms[i] !in skip && ms[i] in reachable then [Note(ms[i], g, content)] else []) +
              FanOut(ms[i + 1..], skip, reachable, g, content)
  {
    assert ms[i..][1..] == ms[i + 1..];
  }

  lemma NobodyLeft(ms: seq<Peer>, skip: set<Peer>, reachable: set<Peer>, g: GroupId, content: Content)
    ensures FanOut(ms[|ms|..], skip, reachable, g, content) == []
  {
  }

  /** `drawn` names the random chain key and the random signing key of a new chain. */
  function NewChain(drawn: nat): Megolm.Sender {
    Megolm.Sender(Random(drawn), 0, drawn)
  }

  // ----- the steps -----

  predicate Signed(c: Control, signer: Peer, sig: Signature) {
    Verifies(signer, ToSign(GroupControl, Body(c)), sig)
  }

  predicate CreateAccepted(me: Peer, sender: Peer, c: Control, sig: Signature) {
    c.Create? && Signed(c, c.founder, sig) && sender == c.founder && me in c.members
  }

  function Created(t: Tables, g: GroupId, name: bytes, founder: Peer, members: seq<Peer>, epoch: u64): Tables {
    t.(groups := t.groups[g := Group(name, founder, epoch)], members := t.members[g := JoinedAll(Members(t, g), members)])
  }

  predicate UpdateAccepted(t: Tables, c: Control, sig: Signature) {
    c.Update? && c.groupId in t.groups && c.epoch > t.groups[c.groupId].epoch && Signed(c, t.groups[c.groupId].founder, sig)
  }

  function Changed(t: Tables, g: GroupId, added: seq<Peer>, removed: seq<Peer>, epoch: u64): Tables
    requires g in t.groups
  {
    t.(groups := t.groups[g := t.groups[g].(epoch := epoch)],
       members := t.members[g := WithoutAll(JoinedAll(Members(t, g), added), removed)],
       theirKeys := KeysWithoutAll(t.theirKeys, g, removed))
  }

  function Rotated(t: Tables, me: Peer, g: GroupId, epoch: u64, reachable: set<Peer>, drawn: nat): Tables {
    t.(mySenderKeys := t.mySenderKeys[g := NewChain(drawn)],
       sent := t.sent + FanOut(Members(t, g), {me}, reachable, g, Keys(Megolm.CurrentBundle(NewChain(drawn)), epoch)))
  }

  /** `send_my_bundle_to`, for each of `ps`. */
  function Onboarded(t: Tables, g: GroupId, ps: seq<Peer>, reachable: set<Peer>): Tables {
    if g in t.groups && g in t.mySenderKeys
    then t.(sent := t.sent + FanOut(ps, {}, reachable, g, Keys(Megolm.CurrentBundle(t.mySenderKeys[g]), t.groups[g].epoch)))
    else t
  }

  function Updated(t: Tables, me: Peer, c: Control, reachable: set<Peer>, drawn: nat): Tables
    requires c.Update? && c.groupId in t.groups
  {
    var changed := Changed(t, c.groupId, c.added, c.removed, c.epoch);
    Onboarded(if c.removed != [] then Rotated(changed, me, c.groupId, c.epoch, reachable, drawn) else changed, c.groupId, c.added, reachable)
  }

  function EpochOf(t: Tables, g: GroupId): u64 {
    if g in t.groups then t.groups[g].epoch else 0
  }

  function Left(t: Tables, me: Peer, g: GroupId, leaver: Peer, reachable: set<Peer>, drawn: nat): Tables {
    var out := t.(members := t.members[g := Without(Members(t, g), leaver)], theirKeys := t.theirKeys - {(g, leaver)});
    Rotated(out, me, g, EpochOf(t, g), reachable, drawn)
  }

  function Controlled(t: Tables, me: Peer, sender: Peer, c: Control, sig: Signature, reachable: set<Peer>,
                      drawn: nat): Tables {
    match c
    case Create(g, name, founder, members, epoch) =>
      if CreateAccepted(me, sender, c, sig) then Created(t, g, name, founder, members, epoch) else t
    case Update(_, _, _, _) =>
      if UpdateAccepted(t, c, sig) then Updated(t, me, c, reachable, drawn) else t
    case Leave(g, leaver, _) =>
      if Signed(c, leaver, sig) then Left(t, me, g, leaver, reachable, drawn) else t
  }

  function Distributed(t: Tables, sender: Peer, g: GroupId, bundle: Megolm.Bundle): Tables {
    if sender in Members(t, g) then t.(theirKeys := t.theirKeys[(g, sender) := Megolm.FromBundle(bundle)]) else t
  }

  /** `process_group_message`: only a successful decryption is kept. */
  function Received(t: Tables, sender: Peer, g: GroupId, msg: Megolm.GroupMessage): (Tables, Option<bytes>) {
    if sender !in Members(t, g) || (g, sender) !in t.theirKeys then (t, None)
    else
      var (r, result) := Megolm.Decrypted(t.theirKeys[(g, sender)], msg, GroupAd(g, sender));
      match result
      case Failure(_) => (t, None)
      case Success(text) => (t.(theirKeys := t.theirKeys[(g, sender) := r]), Some(text))
  }

  // Commands of the local user.

  function MadeGroup(t: Tables, me: Peer, g: GroupId, name: bytes, invited: seq<Peer>, reachable: set<Peer>): Tables {
    var members := if me in invited then invited else [me] + invited;
    var c := Create(g, name, me, members, 0);
    var made := Created(t, g, name, me, members, 0);
    made.(sent := made.sent + FanOut(members, {me}, reachable, g, Announce(c, Signature(me, ToSign(GroupControl, Body(c))))))
  }

  predicate MayChange(t: Tables, me: Peer, g: GroupId) {
    g in t.groups && t.groups[g].founder == me && t.groups[g].epoch + 1 < U64_LIMIT
  }

  function AddedMember(t: Tables, me: Peer, g: GroupId, p: Peer, reachable: set<Peer>): Tables
    requires MayChange(t, me, g)
  {
    var c := Update(g, [p], [], t.groups[g].epoch + 1);
    var changed := Changed(t, g, [p], [], c.epoch);
    var told := changed.(sent := changed.sent + FanOut(Members(changed, g), {me}, reachable, g,
                                                       Announce(c, Signature(me, ToSign(GroupControl, Body(c))))));
    Onboarded(told, g, [p], reachable)
  }

  function RemovedMember(t: Tables, me: Peer, g: GroupId, p: Peer, reachable: set<Peer>, drawn: nat): Tables
    requires MayChange(t, me, g)
  {
    var c := Update(g, [], [p], t.groups[g].epoch + 1);
    var changed := Changed(t, g, [], [p], c.epoch);
    var told := changed.(sent := changed.sent + FanOut(Members(changed, g), {me, p}, reachable, g,
                                                       Announce(c, Signature(me, ToSign(GroupControl, Body(c))))));
    Rotated(told, me, g, c.epoch, reachable, drawn)
  }

  function Forgotten(t: Tables, g: GroupId): Tables {
    t.(groups := t.groups - {g}, members := t.members - {g}, mySenderKeys := t.mySenderKeys - {g},
       theirKeys := map k | k in t.theirKeys && k.0 != g :: t.theirKeys[k])
  }

  function LeftGroup(t: Tables, me: Peer, g: GroupId, reachable: set<Peer>): Tables {
    if g !in t.groups then t
    else
      var c := Leave(g, me, t.groups[g].epoch);
      var told := t.(sent := t.sent + FanOut(Members(t, g), {me}, reachable, g, Announce(c, Signature(me, ToSign(GroupControl, Body(c))))));
      Forgotten(told, g)
  }

  /** `group_send`: a first send draws a chain and hands it to the members before the message. */
  function SentText(t: Tables, me: Peer, g: GroupId, plaintext: bytes, reachable: set<Peer>, drawn: nat): Tables {
    if g !in t.groups then t
    else
      var chain := if g in t.mySenderKeys then t.mySenderKeys[g] else NewChain(drawn);
      var keys := if g in t.mySenderKeys then []
                  else FanOut(Members(t, g), {me}, reachable, g, Keys(Megolm.CurrentBundle(chain), t.groups[g].epoch));
      var (next, msg) := Megolm.Encrypted(chain, plaintext, GroupAd(g, me));
      t.(mySenderKeys := t.mySenderKeys[g := next],
         sent := t.sent + keys + FanOut(Members(t, g), {me}, reachable, g, Text(msg)))
  }

  // ----- runs -----

  datatype Event =
    | ControlArrives(sender: Peer, c: Control, sig: Signature, reachable: set<Peer>, drawn: nat)
    | KeysArrive(sender: Peer, g: GroupId, bundle: Megolm.Bundle)
    | TextArrives(sender: Peer, g: GroupId, msg: Megolm.GroupMessage)
    | MakeGroup(g: GroupId, name: bytes, invited: seq<Peer>, reachable: set<Peer>)
    | AddMember(g: GroupId, p: Peer, reachable: set<Peer>)
    | RemoveMember(g: GroupId, p: Peer, reachable: set<Peer>, drawn: nat)
    | LeaveGroup(g: GroupId, reachable: set<Peer>)
    | SendText(g: GroupId, plaintext: bytes, reachable: set<Peer>, drawn: nat)

  function After(t: Tables, me: Peer, e: Event): Tables {
    match e
    case ControlArrives(sender, c, sig, reachable, drawn) => Controlled(t, me, sender, c, sig, reachable, drawn)
    case KeysArrive(sender, g, bundle) => Distributed(t, sender, g, bundle)
    case TextArrives(sender, g, msg) => Received(t, sender, g, msg).0
    case MakeGroup(g, name, invited, reachable) => MadeGroup(t, me, g, name, invited, reachable)
    case AddMember(g, p, reachable) => if MayChange(t, me, g) then AddedMember(t, me, g, p, reachable) else t
    case RemoveMember(g, p, reachable, drawn) => if MayChange(t, me, g) then RemovedMember(t, me, g, p, reachable, drawn) else t
    case LeaveGroup(g, reachable) => LeftGroup(t, me, g, reachable)
    case SendText(g, plaintext, reachable, drawn) => SentText(t, me, g, plaintext, reachable, drawn)
  }

  function AfterAll(t: Tables, me: Peer, events: seq<Event>): Tables
    decreases |events|
  {
    if events == [] then t else AfterAll(After(t, me, events[0]), me, events[1..])
  }

  const EMPTY := Tables(map[], map[], map[], map[], [])

  // ----- member lists -----

  lemma {:induction false} JoinedAllHas(ms: seq<Peer>, ps: seq<Peer>)
    ensures forall p :: p in JoinedAll(ms, ps) <==> p in ms || p in ps
  {
    if ps != [] {
      JoinedAllHas(ms, ps[..|ps| - 1]);
      assert ps == ps[..|ps| - 1] + [ps[|ps| - 1]];
    }
  }

  lemma {:induction false} WithoutHas(ms: seq<Peer>, p: Peer)
    ensures forall q :: q in Without(ms, p) <==> q in ms && q != p
  {
    if ms != [] {
      WithoutHas(ms[1..], p);
      assert ms == [ms[0]] + ms[1..];
    }
  }

  lemma {:induction false} WithoutAllHas(ms: seq<Peer>, ps: seq<Peer>)
    ensures forall p :: p in WithoutAll(ms, ps) <==> p in ms && p !in ps
  {
    if ps != [] {
      WithoutAllHas(ms, ps[..|ps| - 1]);
      WithoutHas(WithoutAll(ms, ps[..|ps| - 1]), ps[|ps| - 1]);
      assert ps == ps[..|ps| - 1] + [ps[|ps| - 1]];
    }
  }

  lemma {:induction false} KeysWithoutAllHas(keys: map<(GroupId, Peer), Megolm.Receiver>, g: GroupId, ps: seq<Peer>)
    ensures forall k :: k in KeysWithoutAll(keys, g, ps) <==> k in keys && !(k.0 == g && k.1 in ps)
    ensures forall k | k in KeysWithoutAll(keys, g, ps) :: KeysWithoutAll(keys, g, ps)[k] == keys[k]
  {
    if ps != [] {
      KeysWithoutAllHas(keys, g, ps[..|ps| - 1]);
      assert ps == ps[..|ps| - 1] + [ps[|ps| - 1]];
    }
  }

  /** Adding one member, as the tables see it. */
  lemma AddingChanges(t: Tables, g: GroupId, p: Peer, epoch: u64)
    requires g in t.groups
    ensures Changed(t, g, [p], [], epoch) ==
              t.(groups := t.groups[g := t.groups[g].(epoch := epoch)], members := t.members[g := JoinedAll(Members(t, g), [p])])
  {
  }

  lemma RemovingChanges(t: Tables, g: GroupId, p: Peer, epoch: u64)
    requires g in t.groups
    ensures Changed(t, g, [], [p], epoch) ==
              t.(groups := t.groups[g := t.groups[g].(epoch := epoch)],
                 members := t.members[g := WithoutAll(Members(t, g), [p])], theirKeys := KeysWithoutAll(t.theirKeys, g, [p]))
  {
  }

  /** Membership after a change: everyone before and everyone added, except who is removed. */
  lemma ChangedMembers(t: Tables, g: GroupId, added: seq<Peer>, removed: seq<Peer>, epoch: u64)
    requires g in t.groups
    ensures forall p :: p in Members(Changed(t, g, added, removed, epoch), g) <==> (p in Members(t, g) || p in added) && p !in removed
  {
    JoinedAllHas(Members(t, g), added);
    WithoutAllHas(JoinedAll(Members(t, g), added), removed);
  }

  // ----- stored receiver chains belong to members -----

  ghost predicate KeysOfMembers(t: Tables) {
    forall k | k in t.theirKeys :: k.1 in Members(t, k.0)
  }

  lemma StepKeepsKeysOfMembers(t: Tables, me: Peer, e: Event)
    requires KeysOfMembers(t)
    ensures KeysOfMembers(After(t, me, e))
  {
    hide Body, ToSign, FanOut, Controlled, JoinedAll, WithoutAll, Without, KeysWithoutAll, NewChain;
    match e
    case ControlArrives(sender, c, sig, reachable, drawn) => ControlKeepsKeysOfMembers(t, me, sender, c, sig, reachable, drawn);
    case MakeGroup(g, name, invited, reachable) => JoinedAllHas(Members(t, g), if me in invited then invited else [me] + invited);
    case AddMember(g, p, reachable) =>
      if MayChange(t, me, g) {
        ChangeKeepsKeysOfMembers(t, g, [p], [], t.groups[g].epoch + 1);
      }
    case RemoveMember(g, p, reachable, drawn) =>
      if MayChange(t, me, g) {
        ChangeKeepsKeysOfMembers(t, g, [], [p], t.groups[g].epoch + 1);
      }
    case _ =>
  }

  lemma ChangeKeepsKeysOfMembers(t: Tables, g: GroupId, added: seq<Peer>, removed: seq<Peer>, epoch: u64)
    requires KeysOfMembers(t) && g in t.groups
    ensures KeysOfMembers(Changed(t, g, added, removed, epoch))
  {
    ChangedMembers(t, g, added, removed, epoch);
    KeysWithoutAllHas(t.theirKeys, g, removed);
  }

  lemma ControlKeepsKeysOfMembers(t: Tables, me: Peer, sender: Peer, c: Control, sig: Signature,
                        reachable: set<Peer>, drawn: nat)
    requires KeysOfMembers(t)
    ensures KeysOfMembers(Controlled(t, me, sender, c, sig, reachable, drawn))
  {
    hide Body, ToSign, FanOut, JoinedAll, WithoutAll, Without, KeysWithoutAll, NewChain;
    match c
    case Create(g, _, _, members, _) => JoinedAllHas(Members(t, g), members);
    case Update(g, added, removed, epoch) =>
      if UpdateAccepted(t, c, sig) {
        ChangeKeepsKeysOfMembers(t, g, added, removed, epoch);
      }
    case Leave(g, leaver, _) => WithoutHas(Members(t, g), leaver);
  }

  /** After any run, whatever arrives from whomever, a stored receiver chain belongs to a current member. */
  lemma {:induction false} RunKeepsKeysOfMembers(t: Tables, me: Peer, events: seq<Event>)
    requires KeysOfMembers(t)
    ensures KeysOfMembers(AfterAll(t, me, events))
    decreases |events|
  {
    if events != [] {
      StepKeepsKeysOfMembers(t, me, events[0]);
      RunKeepsKeysOfMembers(After(t, me, events[0]), me, events[1..]);
    }
  }

  // ----- epochs -----

  /** The event creates `g` anew, which sets its epoch to whatever the creator says. */
  predicate Makes(me: Peer, e: Event, g: GroupId) {
    match e
    case MakeGroup(h, _, _, _) => h == g
    case ControlArrives(sender, c, sig, _, _) => CreateAccepted(me, sender, c, sig) && c.groupId == g
    case _ => false
  }

  /** The epoch of the membership update that the event applies to `g`, if it applies one. */
  function Applied(t: Tables, me: Peer, e: Event, g: GroupId): seq<u64> {
    match e
    case ControlArrives(_, c, sig, _, _) => if c.groupId == g && UpdateAccepted(t, c, sig) then [c.epoch] else []
    case AddMember(h, _, _) => if h == g && MayChange(t, me, g) then [t.groups[g].epoch + 1] else []
    case RemoveMember(h, _, _, _) => if h == g && MayChange(t, me, g) then [t.groups[g].epoch + 1] else []
    case _ => []
  }

  function AppliedAll(t: Tables, me: Peer, events: seq<Event>, g: GroupId): seq<u64>
    decreases |events|
  {
    if events == [] then [] else Applied(t, me, events[0], g) + AppliedAll(After(t, me, events[0]), me, events[1..], g)
  }

  lemma ControlEpoch(t: Tables, me: Peer, sender: Peer, c: Control, sig: Signature, reachable: set<Peer>, drawn: nat,
                     g: GroupId)
    requires !(CreateAccepted(me, sender, c, sig) && c.groupId == g)
    ensures var groups := Controlled(t, me, sender, c, sig, reachable, drawn).groups;
            if c.groupId == g && UpdateAccepted(t, c, sig) then g in groups && groups[g].epoch == c.epoch
            else (g in groups <==> g in t.groups) && (g in groups ==> groups[g] == t.groups[g])
  {
    hide Body, ToSign, FanOut, JoinedAll, WithoutAll, Without, KeysWithoutAll, Joined, NewChain;
  }

  lemma StepEpoch(t: Tables, me: Peer, e: Event, g: GroupId)
    requires !Makes(me, e, g)
    ensures var applied, groups := Applied(t, me, e, g), After(t, me, e).groups;
            && (g !in t.groups ==> g !in groups && applied == [])
            && (g in t.groups && applied == [] && g in groups ==> groups[g].epoch == t.groups[g].epoch)
            && (applied != [] ==> g in t.groups && |applied| == 1 && g in groups && groups[g].epoch == applied[0] > t.groups[g].epoch)
  {
    hide Body, ToSign, FanOut, JoinedAll, WithoutAll, Without, KeysWithoutAll, Joined, NewChain;
    match e
    case ControlArrives(sender, c, sig, reachable, drawn) => ControlEpoch(t, me, sender, c, sig, reachable, drawn, g);
    case _ =>
  }

  /** Every epoch above `from`, and above the one before. */
  ghost predicate Growing(from: u64, epochs: seq<u64>) {
    && (forall i | 0 <= i < |epochs| :: epochs[i] > from)
    && (forall i, j | 0 <= i < j < |epochs| :: epochs[i] < epochs[j])
  }

  lemma GrowthPrepends(from: u64, first: u64, tail: seq<u64>)
    requires first > from && Growing(first, tail)
    ensures Growing(from, [first] + tail)
  {
    var all := [first] + tail;
    forall i | 0 <= i < |all| ensures all[i] > from {
      assert i == 0 || all[i] == tail[i - 1];
    }
    forall i, j | 0 <= i < j < |all| ensures all[i] < all[j] {
      assert all[j] == tail[j - 1] && (i == 0 || all[i] == tail[i - 1]);
    }
  }

  lemma NothingGrows(from: u64)
    ensures Growing(from, [])
  {
  }

  /** Between creations of a group the epochs applied to it strictly grow, from the epoch it had. */
  lemma {:induction false} EpochsGrow(t: Tables, me: Peer, events: seq<Event>, g: GroupId)
    requires forall e | e in events :: !Makes(me, e, g)
    ensures var epochs, end := AppliedAll(t, me, events, g), AfterAll(t, me, events);
            && (g !in t.groups ==> g !in end.groups && epochs == [])
            && Growing(EpochOf(t, g), epochs)
            && (g in end.groups ==> end.groups[g].epoch == if epochs == [] then EpochOf(t, g) else epochs[|epochs| - 1])
    decreases |events|
  {
    hide After, Applied, Makes, Growing;
    NothingGrows(EpochOf(t, g));
    if events != [] {
      var e, next := events[0], After(t, me, events[0]);
      StepEpoch(t, me, e, g);
      EpochsGrow(next, me, events[1..], g);
      var head, tail := Applied(t, me, e, g), AppliedAll(next, me, events[1..], g);
      if head == [] {
        assert head + tail == tail;
      } else {
        assert head == [head[0]] && head + tail == [head[0]] + tail;
        GrowthPrepends(EpochOf(t, g), head[0], tail);
      }
    }
  }

  /** A group's row goes when the user leaves, and in no other way: an update that removes the user keeps it. */
  lemma RowGoesByLeaving(t: Tables, me: Peer, e: Event, g: GroupId)
    requires g in t.groups
    ensures g !in After(t, me, e).groups <==> e.LeaveGroup? && e.g == g
  {
    hide Body, ToSign, FanOut, JoinedAll, WithoutAll, Without, KeysWithoutAll, Joined, NewChain;
    if e.ControlArrives? && !Makes(me, e, g) {
      ControlEpoch(t, me, e.sender, e.c, e.sig, e.reachable, e.drawn, g);
    }
  }

  /** The concrete update: the user is out, the row stays, and the chain it then draws goes to the founder. */
  lemma RemovedUserKeepsTheGroup(me: Peer, founder: Peer, g: GroupId, drawn: nat)
    requires founder != me
    ensures var t := Created(EMPTY, g, [], founder, [founder, me], 0);
            var c := Update(g, [], [me], 1);
            var after := After(t, me, ControlArrives(founder, c, Signature(founder, ToSign(GroupControl, Body(c))), {founder}, drawn));
            && me in Members(t, g) && me !in Members(after, g)
            && g in after.groups && after.groups[g] == Group([], founder, 1)
            && g in after.mySenderKeys && after.mySenderKeys[g] == NewChain(drawn)
            && Note(founder, g, Keys(Megolm.CurrentBundle(NewChain(drawn)), 1)) in after.sent
  {
    var t := Created(EMPTY, g, [], founder, [founder, me], 0);
    JoinedAllHas(Members(EMPTY, g), [founder, me]);
    ChangedMembers(t, g, [], [me], 1);
    var changed := Changed(t, g, [], [me], 1);
    var content := Keys(Megolm.CurrentBundle(NewChain(drawn)), 1);
    assert Note(founder, g, content) in FanOut(Members(changed, g), {me}, {founder}, g, content);
    RemovalRotates(t, me, founder, Update(g, [], [me], 1), {founder}, drawn);
  }

  /** What an accepted update that removes someone comes to, when it adds nobody. */
  lemma RemovalRotates(t: Tables, me: Peer, sender: Peer, c: Control, reachable: set<Peer>, drawn: nat)
    requires c.Update? && c.added == [] && c.removed != [] && c.groupId in t.groups && c.epoch > t.groups[c.groupId].epoch
    ensures var sig := Signature(t.groups[c.groupId].founder, ToSign(GroupControl, Body(c)));
            Controlled(t, me, sender, c, sig, reachable, drawn) ==
              Rotated(Changed(t, c.groupId, [], c.removed, c.epoch), me, c.groupId, c.epoch, reachable, drawn)
  {
    hide Body, ToSign, JoinedAll, WithoutAll, KeysWithoutAll;
    var rotated := Rotated(Changed(t, c.groupId, [], c.removed, c.epoch), me, c.groupId, c.epoch, reachable, drawn);
    assert rotated.sent + [] == rotated.sent;
  }

  /** No update is applied twice: once one has been applied, that update and any older one is refused and
      changes nothing, for as long as nobody creates the group anew. */
  lemma ReplayRefused(t: Tables, me: Peer, first: Event, between: seq<Event>, again: Event)
    requires again.ControlArrives? && again.c.Update?
    requires forall e | e in [first] + between :: !Makes(me, e, again.c.groupId)
    requires var applied := Applied(t, me, first, again.c.groupId); applied != [] && again.c.epoch <= applied[0]
    ensures var later := AfterAll(t, me, [first] + between); After(later, me, again) == later
  {
    var g := again.c.groupId;
    var run := [first] + between;
    assert run[0] == first && run[1..] == between;
    EpochsGrow(t, me, run, g);
    var epochs := AppliedAll(t, me, run, g);
    assert epochs[0] == Applied(t, me, first, g)[0];
  }

  // ----- who changes a group -----

  /** The group's row and members, as one value. */
  function RowAndMembers(t: Tables, g: GroupId): (Option<Group>, seq<Peer>) {
    (if g in t.groups then Some(t.groups[g]) else None, Members(t, g))
  }

  /** A control message changes a group only if it is about that group and carries the right signature: its
      founder's over exactly this content, the creator's over its own creation, or the leaver's, who takes
      out nobody else. */
  lemma OnlySignedChanges(t: Tables, me: Peer, sender: Peer, c: Control, sig: Signature, reachable: set<Peer>,
                        drawn: nat, g: GroupId)
    requires RowAndMembers(Controlled(t, me, sender, c, sig, reachable, drawn), g) != RowAndMembers(t, g)
    ensures c.groupId == g && sig.over == ToSign(GroupControl, Body(c))
    ensures match c
            case Create(_, _, founder, members, _) => sig.signer == founder == sender && me in members
            case Update(_, _, _, epoch) => g in t.groups && sig.signer == t.groups[g].founder && epoch > t.groups[g].epoch
            case Leave(_, leaver, _) =>
              var after := Controlled(t, me, sender, c, sig, reachable, drawn);
              sig.signer == leaver && after.groups == t.groups &&
              forall p :: p in Members(after, g) <==> p in Members(t, g) && p != leaver
  {
    hide Body, ToSign, FanOut, JoinedAll, WithoutAll, KeysWithoutAll, NewChain;
    if c.Leave? {
      WithoutHas(Members(t, c.groupId), c.leaver);
    }
  }

  /** Who creates, when the event creates. */
  function Maker(me: Peer, e: Event): Peer {
    if e.ControlArrives? then e.sender else me
  }

  /** The stored founder changes exactly when someone else creates the group over again: there is no other
      way, and nothing keeps a creation from it. */
  lemma StepFounder(t: Tables, me: Peer, e: Event, g: GroupId)
    requires g in t.groups && g in After(t, me, e).groups
    ensures After(t, me, e).groups[g].founder != t.groups[g].founder <==> Makes(me, e, g) && Maker(me, e) != t.groups[g].founder
  {
    hide Body, ToSign, FanOut, JoinedAll, WithoutAll, Without, KeysWithoutAll, Joined, NewChain;
    if !Makes(me, e, g) && e.ControlArrives? {
      ControlFounder(t, me, e.sender, e.c, e.sig, e.reachable, e.drawn, g);
    }
  }

  lemma ControlFounder(t: Tables, me: Peer, sender: Peer, c: Control, sig: Signature, reachable: set<Peer>,
                       drawn: nat, g: GroupId)
    requires g in t.groups && !(CreateAccepted(me, sender, c, sig) && c.groupId == g)
    ensures var groups := Controlled(t, me, sender, c, sig, reachable, drawn).groups;
            g in groups && groups[g].founder == t.groups[g].founder
  {
    hide Body, ToSign, FanOut, JoinedAll, WithoutAll, Without, KeysWithoutAll, Joined, NewChain;
  }

  /** Over any run, then, the founder is the sole authority as long as nobody else creates the group. */
  lemma {:induction false} RunKeepsFounder(t: Tables, me: Peer, events: seq<Event>, g: GroupId, founder: Peer)
    requires g in t.groups ==> t.groups[g].founder == founder
    requires forall e | e in events && Makes(me, e, g) :: Maker(me, e) == founder
    ensures var end := AfterAll(t, me, events); g in end.groups ==> end.groups[g].founder == founder
    decreases |events|
  {
    hide After, Makes;
    if events != [] {
      var e := events[0];
      if g in After(t, me, e).groups {
        if g in t.groups {
          StepFounder(t, me, e, g);
        } else {
          NewRowIsMade(t, me, e, g);
        }
      }
      RunKeepsFounder(After(t, me, e), me, events[1..], g, founder);
    }
  }

  lemma NewRowIsMade(t: Tables, me: Peer, e: Event, g: GroupId)
    requires g !in t.groups && g in After(t, me, e).groups
    ensures Makes(me, e, g) && After(t, me, e).groups[g].founder == Maker(me, e)
  {
    hide Body, ToSign, FanOut, JoinedAll, WithoutAll, Without, KeysWithoutAll, Joined, NewChain;
    if !Makes(me, e, g) {
      StepEpoch(t, me, e, g);
    }
  }

  /** A creation of a known group by a stranger, concretely: founder and epoch are replaced. */
  lemma StrangerReplacesFounder(me: Peer, founder: Peer, stranger: Peer, g: GroupId, drawn: nat)
    requires stranger != founder
    ensures var t := Created(EMPTY, g, [], founder, [founder, me], 5);
            var c := Create(g, [], stranger, [me], 0);
            var after := After(t, me, ControlArrives(stranger, c, Signature(stranger, ToSign(GroupControl, Body(c))), {}, drawn));
            t.groups[g].founder == founder && after.groups[g] == Group([], stranger, 0)
  {
  }

  /** A leave is not tied to an epoch. Whenever a signed one arrives, from whomever and however old, the
      leaver is out; so after it has been added again, the same leave takes it out a second time. */
  lemma OldLeaveCounts(t: Tables, me: Peer, sender: Peer, add: Control, addSig: Signature, relay: Peer, leaver: Peer,
                       epoch: u64,
                       reachable: set<Peer>, drawn: nat)
    requires UpdateAccepted(t, add, addSig) && leaver in add.added && leaver !in add.removed
    ensures var g := add.groupId;
            var leave := Leave(g, leaver, epoch);
            var back := Controlled(t, me, sender, add, addSig, reachable, drawn);
            var after := Controlled(back, me, relay, leave, Signature(leaver, ToSign(GroupControl, Body(leave))), reachable, drawn);
            && leaver in Members(back, g) && leaver !in Members(after, g)
            && after.groups == back.groups && (g, leaver) !in after.theirKeys
  {
    hide Body, ToSign, FanOut, JoinedAll, WithoutAll, KeysWithoutAll, NewChain;
    var g := add.groupId;
    ChangedMembers(t, g, add.added, add.removed, add.epoch);
    var back := Controlled(t, me, sender, add, addSig, reachable, drawn);
    assert Members(back, g) == Members(Changed(t, g, add.added, add.removed, add.epoch), g);
    WithoutHas(Members(back, g), leaver);
  }

  // ----- who holds my current sender chain -----

  /** The note hands out the chain I now send under in its group. */
  predicate Current(t: Tables, n: Note) {
    n.content.Keys? && n.group in t.mySenderKeys &&
    n.content.bundle.verifyPub == Megolm.VerifyKey(t.mySenderKeys[n.group].signPriv)
  }

  /** Nobody but members has been handed it. */
  ghost predicate ChainsInside(t: Tables) {
    forall n | n in t.sent && Current(t, n) :: n.to in Members(t, n.group)
  }

  predicate Handed(n: Note, drawn: nat) {
    n.content.Keys? && n.content.bundle.verifyPub == Megolm.VerifyKey(drawn)
  }

  /** The key the event draws, if it draws one, has not been handed out before. */
  ghost predicate FreshDraw(t: Tables, e: Event) {
    match e
    case ControlArrives(_, _, _, _, drawn) => forall n | n in t.sent :: !Handed(n, drawn)
    case RemoveMember(_, _, _, drawn) => forall n | n in t.sent :: !Handed(n, drawn)
    case SendText(_, _, _, drawn) => forall n | n in t.sent :: !Handed(n, drawn)
    case _ => true
  }

  /** The event is an accepted update that both adds and removes a reachable peer. */
  ghost predicate NamesTwice(t: Tables, e: Event) {
    e.ControlArrives? && UpdateAccepted(t, e.c, e.sig) &&
    exists p :: p in e.c.added && p in e.c.removed && p in e.reachable
  }

  /** A new chain, handed only to members of a group, is inside it; other groups are not touched. */
  lemma RotationInside(t: Tables, me: Peer, g: GroupId, epoch: u64, reachable: set<Peer>, drawn: nat)
    requires forall n | n in t.sent && Current(t, n) && n.group != g :: n.to in Members(t, n.group)
    requires forall n | n in t.sent :: !Handed(n, drawn)
    ensures ChainsInside(Rotated(t, me, g, epoch, reachable, drawn))
  {
    var after := Rotated(t, me, g, epoch, reachable, drawn);
    var notes := FanOut(Members(t, g), {me}, reachable, g, Keys(Megolm.CurrentBundle(NewChain(drawn)), epoch));
    forall n | n in after.sent && Current(after, n) ensures n.to in Members(after, n.group) {
      assert n in t.sent || n in notes;
      if n in t.sent && n !in notes {
        assert !Handed(n, drawn);
        assert n.group != g && Current(t, n);
      }
    }
  }

  lemma OnboardingInside(t: Tables, g: GroupId, ps: seq<Peer>, reachable: set<Peer>)
    requires ChainsInside(t) && g in t.groups && g in t.mySenderKeys
    ensures ChainsInside(Onboarded(t, g, ps, reachable)) <==> forall p | p in ps && p in reachable :: p in Members(t, g)
  {
    var after := Onboarded(t, g, ps, reachable);
    var content := Keys(Megolm.CurrentBundle(t.mySenderKeys[g]), t.groups[g].epoch);
    var notes := FanOut(ps, {}, reachable, g, content);
    forall n ensures n in after.sent <==> n in t.sent || n in notes {
    }
    forall p | p in ps && p in reachable ensures Note(p, g, content) in after.sent && Current(after, Note(p, g, content)) {
    }
    forall n | n in notes ensures n.to in ps && n.to in reachable && n.group == g {
    }
    forall n | n in t.sent ensures Current(after, n) <==> Current(t, n) {
    }
  }

  /** With members added and nobody removed, or tables changed elsewhere, what was inside stays inside. */
  lemma GrowthInside(t: Tables, after: Tables)
    requires ChainsInside(t) && after.mySenderKeys == t.mySenderKeys
    requires forall n | n in after.sent && n.content.Keys? :: n in t.sent
    requires forall g, p | p in Members(t, g) :: p in Members(after, g)
    ensures ChainsInside(after)
  {
    forall n | n in after.sent && Current(after, n) ensures n.to in Members(after, n.group) {
      assert n in t.sent && Current(t, n);
    }
  }

  /** An accepted update keeps my current chain inside the group exactly when it does not both add and
      remove a reachable peer. */
  lemma UpdateInside(t: Tables, me: Peer, c: Control, reachable: set<Peer>, drawn: nat)
    requires ChainsInside(t) && c.Update? && c.groupId in t.groups
    requires forall n | n in t.sent :: !Handed(n, drawn)
    ensures ChainsInside(Updated(t, me, c, reachable, drawn)) <==> !exists p :: p in c.added && p in c.removed && p in reachable
  {
    var g := c.groupId;
    var changed := Changed(t, g, c.added, c.removed, c.epoch);
    ChangedMembers(t, g, c.added, c.removed, c.epoch);
    if c.removed != [] {
      var rotated := Rotated(changed, me, g, c.epoch, reachable, drawn);
      forall n | n in changed.sent && Current(changed, n) && n.group != g ensures n.to in Members(changed, n.group) {
        assert Current(t, n);
      }
      RotationInside(changed, me, g, c.epoch, reachable, drawn);
      OnboardingInside(rotated, g, c.added, reachable);
    } else {
      GrowthInside(t, changed);
      if g in t.mySenderKeys {
        OnboardingInside(changed, g, c.added, reachable);
      }
    }
  }

  lemma MakingInside(t: Tables, me: Peer, g: GroupId, name: bytes, members: seq<Peer>, founder: Peer, epoch: u64)
    requires ChainsInside(t)
    ensures ChainsInside(Created(t, g, name, founder, members, epoch))
  {
    JoinedAllHas(Members(t, g), members);
    GrowthInside(t, Created(t, g, name, founder, members, epoch));
  }

  lemma LeavingInside(t: Tables, me: Peer, g: GroupId, leaver: Peer, reachable: set<Peer>, drawn: nat)
    requires ChainsInside(t) && forall n | n in t.sent :: !Handed(n, drawn)
    ensures ChainsInside(Left(t, me, g, leaver, reachable, drawn))
  {
    var out := t.(members := t.members[g := Without(Members(t, g), leaver)], theirKeys := t.theirKeys - {(g, leaver)});
    forall n | n in out.sent && Current(out, n) && n.group != g ensures n.to in Members(out, n.group) {
      assert Current(t, n);
    }
    RotationInside(out, me, g, EpochOf(t, g), reachable, drawn);
  }

  lemma AddingInside(t: Tables, me: Peer, g: GroupId, p: Peer, reachable: set<Peer>)
    requires ChainsInside(t) && MayChange(t, me, g)
    ensures ChainsInside(AddedMember(t, me, g, p, reachable))
  {
    var c := Update(g, [p], [], t.groups[g].epoch + 1);
    var changed := Changed(t, g, [p], [], c.epoch);
    var told := changed.(sent := changed.sent + FanOut(Members(changed, g), {me}, reachable, g,
                                                       Announce(c, Signature(me, ToSign(GroupControl, Body(c))))));
    ChangedMembers(t, g, [p], [], c.epoch);
    GrowthInside(t, told);
    if g in told.mySenderKeys {
      OnboardingInside(told, g, [p], reachable);
    }
  }

  lemma RemovingInside(t: Tables, me: Peer, g: GroupId, p: Peer, reachable: set<Peer>, drawn: nat)
    requires ChainsInside(t) && MayChange(t, me, g) && forall n | n in t.sent :: !Handed(n, drawn)
    ensures ChainsInside(RemovedMember(t, me, g, p, reachable, drawn))
  {
    var c := Update(g, [], [p], t.groups[g].epoch + 1);
    var changed := Changed(t, g, [], [p], c.epoch);
    var told := changed.(sent := changed.sent + FanOut(Members(changed, g), {me, p}, reachable, g,
                                                       Announce(c, Signature(me, ToSign(GroupControl, Body(c))))));
    forall n | n in told.sent && Current(told, n) && n.group != g ensures n.to in Members(told, n.group) {
      assert n in t.sent && Current(t, n);
    }
    RotationInside(told, me, g, c.epoch, reachable, drawn);
  }

  lemma LeavingGroupInside(t: Tables, me: Peer, g: GroupId, reachable: set<Peer>)
    requires ChainsInside(t)
    ensures ChainsInside(LeftGroup(t, me, g, reachable))
  {
    var after := LeftGroup(t, me, g, reachable);
    forall n | n in after.sent && Current(after, n) ensures n.to in Members(after, n.group) {
      assert n in t.sent && Current(t, n);
    }
  }

  lemma SendingInside(t: Tables, me: Peer, g: GroupId, plaintext: bytes, reachable: set<Peer>, drawn: nat)
    requires ChainsInside(t) && forall n | n in t.sent :: !Handed(n, drawn)
    ensures ChainsInside(SentText(t, me, g, plaintext, reachable, drawn))
  {
    var after := SentText(t, me, g, plaintext, reachable, drawn);
    if g in t.groups {
      if g in t.mySenderKeys {
        forall n | n in after.sent && Current(after, n) ensures n.to in Members(after, n.group) {
          assert n in t.sent && Current(t, n);
        }
      } else {
        var keys := FanOut(Members(t, g), {me}, reachable, g, Keys(Megolm.CurrentBundle(NewChain(drawn)), t.groups[g].epoch));
        forall n | n in after.sent && Current(after, n) ensures n.to in Members(after, n.group) {
          assert n in t.sent || n in keys;
          if n in t.sent && n !in keys {
            assert !Handed(n, drawn);
            assert Current(t, n);
          }
        }
      }
    }
  }

  /** One event, exactly: the chains I send under stay inside their groups if and only if the event is not
      an update that both adds and removes a reachable peer. */
  lemma StepInside(t: Tables, me: Peer, e: Event)
    requires ChainsInside(t) && FreshDraw(t, e)
    ensures ChainsInside(After(t, me, e)) <==> !NamesTwice(t, e)
  {
    hide ChainsInside, Body, ToSign, FanOut;
    match e
    case ControlArrives(sender, c, sig, reachable, drawn) =>
      match c {
        case Create(g, name, founder, members, epoch) => MakingInside(t, me, g, name, members, founder, epoch);
        case Update(_, _, _, _) =>
          if UpdateAccepted(t, c, sig) {
            UpdateInside(t, me, c, reachable, drawn);
          }
        case Leave(g, leaver, _) => LeavingInside(t, me, g, leaver, reachable, drawn);
      }
    case KeysArrive(sender, g, bundle) => OthersInside(t, me, e);
    case TextArrives(sender, g, msg) => OthersInside(t, me, e);
    case MakeGroup(g, name, invited, reachable) => OthersInside(t, me, e);
    case AddMember(g, p, reachable) =>
      if MayChange(t, me, g) {
        AddingInside(t, me, g, p, reachable);
      }
    case RemoveMember(g, p, reachable, drawn) =>
      if MayChange(t, me, g) {
        RemovingInside(t, me, g, p, reachable, drawn);
      }
    case LeaveGroup(g, reachable) => LeavingGroupInside(t, me, g, reachable);
    case SendText(g, plaintext, reachable, drawn) => SendingInside(t, me, g, plaintext, reachable, drawn);
  }

  lemma OthersInside(t: Tables, me: Peer, e: Event)
    requires ChainsInside(t) && (e.KeysArrive? || e.TextArrives? || e.MakeGroup?)
    ensures ChainsInside(After(t, me, e))
  {
    hide Body, ToSign, ChainsInside, JoinedAll;
    if e.MakeGroup? {
      JoinedAllHas(Members(t, e.g), if me in e.invited then e.invited else [me] + e.invited);
    }
    GrowthInside(t, After(t, me, e));
  }

  /** Every key drawn is new, and no accepted update names a reachable peer twice. */
  ghost predicate Orderly(t: Tables, me: Peer, events: seq<Event>)
    decreases |events|
  {
    events != [] ==> FreshDraw(t, events[0]) && !NamesTwice(t, events[0]) && Orderly(After(t, me, events[0]), me, events[1..])
  }

  /** Whole runs: the sender chain I use in a group is known to current members only, across joins, removals,
      leaves and rotations. */
  lemma {:induction false} RunInside(t: Tables, me: Peer, events: seq<Event>)
    requires ChainsInside(t) && Orderly(t, me, events)
    ensures ChainsInside(AfterAll(t, me, events))
    decreases |events|
  {
    if events != [] {
      StepInside(t, me, events[0]);
      RunInside(After(t, me, events[0]), me, events[1..]);
    }
  }

  /** The one way out, concretely: an update signed by the founder that adds and removes the same peer hands
      that peer the chain drawn to shut it out. */
  lemma NamedTwiceGetsTheNewChain(me: Peer, founder: Peer, p: Peer, g: GroupId, drawn: nat)
    requires p != me && p != founder
    ensures var t := Created(EMPTY, g, [], founder, [founder, me], 0);
            var c := Update(g, [p], [p], 1);
            var after := After(t, me, ControlArrives(founder, c, Signature(founder, ToSign(GroupControl, Body(c))), {p}, drawn));
            && ChainsInside(t) && p !in Members(after, g)
            && Note(p, g, Keys(Megolm.CurrentBundle(NewChain(drawn)), 1)) in after.sent
            && after.mySenderKeys[g] == NewChain(drawn)
  {
    var t := Created(EMPTY, g, [], founder, [founder, me], 0);
    var c := Update(g, [p], [p], 1);
    ChangedMembers(t, g, [p], [p], 1);
    var changed := Changed(t, g, [p], [p], 1);
    var rotated := Rotated(changed, me, g, 1, {p}, drawn);
    var notes := FanOut([p], {}, {p}, g, Keys(Megolm.CurrentBundle(NewChain(drawn)), 1));
    assert Note(p, g, Keys(Megolm.CurrentBundle(NewChain(drawn)), 1)) in notes;
  }

  // ----- who is sent a group text -----

  /** A text goes to exactly the other members that can be reached, all under one message of my chain; and
      whoever was handed this chain before is a member too. */
  lemma TextReachesMembers(t: Tables, me: Peer, g: GroupId, plaintext: bytes, reachable: set<Peer>, drawn: nat)
    requires ChainsInside(t) && FreshDraw(t, SendText(g, plaintext, reachable, drawn)) && g in t.groups
    ensures var chain := if g in t.mySenderKeys then t.mySenderKeys[g] else NewChain(drawn);
            var msg := Megolm.Encrypted(chain, plaintext, GroupAd(g, me)).1;
            var after := SentText(t, me, g, plaintext, reachable, drawn);
            && after.sent[..|t.sent|] == t.sent
            && (forall p :: Note(p, g, Text(msg)) in after.sent[|t.sent|..] <==> p in Members(t, g) && p != me && p in reachable)
            && (forall n | n in after.sent && n.group == g && Handed(n, chain.signPriv) :: n.to in Members(t, g))
  {
    SendingInside(t, me, g, plaintext, reachable, drawn);
    TextGoesOut(t, me, g, plaintext, reachable, drawn);
    var chain := if g in t.mySenderKeys then t.mySenderKeys[g] else NewChain(drawn);
    var after := SentText(t, me, g, plaintext, reachable, drawn);
    hide FanOut, Body, ToSign;
    forall n | n in after.sent && n.group == g && Handed(n, chain.signPriv) ensures n.to in Members(t, g) {
      assert Current(after, n);
    }
  }

  lemma TextGoesOut(t: Tables, me: Peer, g: GroupId, plaintext: bytes, reachable: set<Peer>, drawn: nat)
    requires g in t.groups
    ensures var chain := if g in t.mySenderKeys then t.mySenderKeys[g] else NewChain(drawn);
            var msg := Megolm.Encrypted(chain, plaintext, GroupAd(g, me)).1;
            var after := SentText(t, me, g, plaintext, reachable, drawn);
            && |t.sent| <= |after.sent| && after.sent[..|t.sent|] == t.sent
            && (forall p :: Note(p, g, Text(msg)) in after.sent[|t.sent|..] <==> p in Members(t, g) && p != me && p in reachable)
  {
    var chain := if g in t.mySenderKeys then t.mySenderKeys[g] else NewChain(drawn);
    var after := SentText(t, me, g, plaintext, reachable, drawn);
    var keys := if g in t.mySenderKeys then []
                else FanOut(Members(t, g), {me}, reachable, g, Keys(Megolm.CurrentBundle(chain), t.groups[g].epoch));
    var texts := FanOut(Members(t, g), {me}, reachable, g, Text(Megolm.Encrypted(chain, plaintext, GroupAd(g, me)).1));
    assert after.sent[|t.sent|..] == keys + texts;
  }
}
