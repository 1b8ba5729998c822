// What the node does with the texts a user submits: sent now, queued on disk, or held until a prekey
// arrives. Two things are kept over every event: any session in the table can encrypt, and every submitted
// text is in exactly one of the three places. What is sent, and what becomes of what arrives, is what
// `Posting` says.
module NodeSends {
  import opened Wrappers
  import opened Words
  import opened Symbolic
  import opened RatchetSpec
  import opened Handshake
  import opened Posting
  import Signing

  datatype Packet = Packet(to: Peer, payload: Payload)

  datatype Content = Plain(text: bytes) | Wire(payload: Payload)

  datatype Row = Row(id: nat, to: Peer, content: Content)

  // ----- where the texts are -----

  function Sent(net: seq<Packet>, q: Peer): multiset<bytes> {
    if net == [] then multiset{}
    else
      var last := net[|net| - 1];
      Sent(net[..|net| - 1], q) +
      (if last.to == q && last.payload.kind == KIND_TEXT then multiset{Inside(last.payload)} else multiset{})
  }

  function TextOf(c: Content): bytes {
    match c
    case Plain(text) => text
    case Wire(payload) => Inside(payload)
  }

  function Queued(outbox: seq<Row>, q: Peer): multiset<bytes> {
    if outbox == [] then multiset{}
    else
      var last := outbox[|outbox| - 1];
      Queued(outbox[..|outbox| - 1], q) + (if last.to == q then multiset{TextOf(last.content)} else multiset{})
  }

  function Waiting(pending: map<Peer, seq<bytes>>, q: Peer): multiset<bytes> {
    if q in pending then multiset(pending[q]) else multiset{}
  }

  function Submitted(texts: seq<(Peer, bytes)>, q: Peer): multiset<bytes> {
    if texts == [] then multiset{}
    else
      var last := texts[|texts| - 1];
      Submitted(texts[..|texts| - 1], q) + (if last.0 == q then multiset{last.1} else multiset{})
  }

  function One(q: Peer, peer: Peer, text: bytes): multiset<bytes> {
    if q == peer then multiset{text} else multiset{}
  }

  lemma SentAppends(net: seq<Packet>, p: Packet, q: Peer)
    ensures Sent(net + [p], q) == Sent(net, q) + (if p.payload.kind == KIND_TEXT then One(q, p.to, Inside(p.payload)) else multiset{})
  {
    assert (net + [p])[..|net|] == net;
  }

  lemma QueuedAppends(outbox: seq<Row>, row: Row, q: Peer)
    ensures Queued(outbox + [row], q) == Queued(outbox, q) + One(q, row.to, TextOf(row.content))
  {
    assert (outbox + [row])[..|outbox|] == outbox;
  }

  lemma SubmittedAppends(texts: seq<(Peer, bytes)>, peer: Peer, text: bytes, q: Peer)
    ensures Submitted(texts + [(peer, text)], q) == Submitted(texts, q) + One(q, peer, text)
  {
    assert (texts + [(peer, text)])[..|texts|] == texts;
  }

  /** All the places a text for `q` can be. */
  function Total(net: seq<Packet>, outbox: seq<Row>, pending: map<Peer, seq<bytes>>, q: Peer): multiset<bytes> {
    Sent(net, q) + Queued(outbox, q) + Waiting(pending, q)
  }

  // ----- the outbox table -----

  function Deleted(outbox: seq<Row>, id: nat): seq<Row> {
    if outbox == [] then []
    else
      var last := outbox[|outbox| - 1];
      Deleted(outbox[..|outbox| - 1], id) + (if last.id == id then [] else [last])
  }

  function RowsFor(outbox: seq<Row>, peer: Peer): seq<Row> {
    if outbox == [] then []
    else
      var last := outbox[|outbox| - 1];
      RowsFor(outbox[..|outbox| - 1], peer) + (if last.to == peer then [last] else [])
  }

  ghost predicate RowsSound(outbox: seq<Row>, nextRow: nat) {
    && (forall i | 0 <= i < |outbox| :: outbox[i].id < nextRow)
    && (forall i, j | 0 <= i < j < |outbox| :: outbox[i].id < outbox[j].id)
  }

  lemma RowsAppend(rows: seq<Row>, last: Row, nextRow: nat)
    requires RowsSound(rows, nextRow) && last.id < nextRow && forall r | r in rows :: r.id < last.id
    ensures RowsSound(rows + [last], nextRow)
  {
    forall i | 0 <= i < |rows| ensures rows[i].id < last.id {
      assert rows[i] in rows;
    }
  }

  lemma {:induction false} DeletedKeeps(outbox: seq<Row>, id: nat, nextRow: nat)
    requires RowsSound(outbox, nextRow)
    ensures RowsSound(Deleted(outbox, id), nextRow)
    ensures forall r :: r in Deleted(outbox, id) <==> r in outbox && r.id != id
  {
    if outbox != [] {
      var front, last := outbox[..|outbox| - 1], outbox[|outbox| - 1];
      DeletedKeeps(front, id, nextRow);
      assert outbox == front + [last];
      var kept := Deleted(front, id);
      forall r | r in kept ensures r.id < last.id {
        assert r in front;
      }
      if last.id != id {
        RowsAppend(kept, last, nextRow);
      }
    }
  }

  lemma {:induction false} NothingToDelete(outbox: seq<Row>, id: nat)
    requires forall r | r in outbox :: r.id != id
    ensures Deleted(outbox, id) == outbox
  {
    if outbox != [] {
      var front, last := outbox[..|outbox| - 1], outbox[|outbox| - 1];
      assert outbox == front + [last];
      assert last in outbox;
      NothingToDelete(front, id);
    }
  }

  lemma Exchange(a: multiset<bytes>, b: multiset<bytes>, c: multiset<bytes>)
    ensures a + b + c == a + c + b
  {
  }

  lemma Cancels(a: multiset<bytes>, b: multiset<bytes>, x: multiset<bytes>)
    requires a + x == b + x
    ensures a == b
  {
    assert a == (a + x) - x && b == (b + x) - x;
  }

  /** Deleting a row takes out exactly its text. */
  lemma {:induction false} DeletedTakes(outbox: seq<Row>, row: Row, nextRow: nat, q: Peer)
    requires RowsSound(outbox, nextRow) && row in outbox
    ensures Queued(outbox, q) == Queued(Deleted(outbox, row.id), q) + One(q, row.to, TextOf(row.content))
  {
    hide Queued, One, TextOf;
    var front, last := outbox[..|outbox| - 1], outbox[|outbox| - 1];
    assert outbox == front + [last];
    QueuedAppends(front, last, q);
    var at :| 0 <= at < |outbox| && outbox[at] == row;
    if at == |front| {
      NothingToDelete(front, row.id);
      assert Deleted(outbox, row.id) == front;
    } else {
      assert row in front && last.id != row.id;
      assert Deleted(outbox, row.id) == Deleted(front, row.id) + [last];
      DeletedTakes(front, row, nextRow, q);
      QueuedAppends(Deleted(front, row.id), last, q);
      Exchange(Queued(Deleted(front, row.id), q), One(q, row.to, TextOf(row.content)), One(q, last.to, TextOf(last.content)));
    }
  }

  lemma {:induction false} RowsForFinds(outbox: seq<Row>, peer: Peer, nextRow: nat)
    requires RowsSound(outbox, nextRow)
    ensures RowsSound(RowsFor(outbox, peer), nextRow)
    ensures forall r :: r in RowsFor(outbox, peer) <==> r in outbox && r.to == peer
  {
    if outbox != [] {
      var front, last := outbox[..|outbox| - 1], outbox[|outbox| - 1];
      RowsForFinds(front, peer, nextRow);
      assert outbox == front + [last];
      forall r | r in RowsFor(front, peer) ensures r.id < last.id {
        assert r in front;
      }
    }
  }

  // ----- draining -----

  /** What draining rows for a connected peer comes to: the session afterwards, what is sent, and what has to
      wait for a prekey. */
  datatype Drain = Drain(session: Option<State>, sent: seq<Payload>, held: seq<bytes>)

  function DrainedOne(me: Peer, spk: PrivId, peer: Peer, keys: Option<Prekeys>, d: Draws, before: Drain, content: Content): (r: Drain)
    requires before.session.Some? ==> before.session.value.cks.Some?
    ensures (r.session.Some? ==> r.session.value.cks.Some?) && (before.session.Some? ==> r.session.Some?)
  {
    match content
    case Wire(payload) => before.(sent := before.sent + [payload])
    case Plain(text) =>
      if before.session.Some? || keys.Some? then
        var (st, p) := SendsOne(me, spk, peer, keys, d, before.session, text);
        before.(session := Some(st), sent := before.sent + [p])
      else before.(held := before.held + [text])
  }

  function Drained(me: Peer, spk: PrivId, peer: Peer, keys: Option<Prekeys>, d: Draws, session: Option<State>, rows: seq<Row>): (r: Drain)
    requires session.Some? ==> session.value.cks.Some?
    ensures r.session.Some? ==> r.session.value.cks.Some?
  {
    if rows == [] then Drain(session, [], [])
    else DrainedOne(me, spk, peer, keys, d, Drained(me, spk, peer, keys, d, session, rows[..|rows| - 1]), rows[|rows| - 1].content)
  }

  lemma DrainedLast(me: Peer, spk: PrivId, peer: Peer, keys: Option<Prekeys>, d: Draws, session: Option<State>, front: seq<Row>, row: Row)
    requires session.Some? ==> session.value.cks.Some?
    ensures Drained(me, spk, peer, keys, d, session, front + [row]) ==
              DrainedOne(me, spk, peer, keys, d, Drained(me, spk, peer, keys, d, session, front), row.content)
  {
    assert (front + [row])[..|front|] == front;
  }

  /** The stored payloads and the plaintexts among the rows, in order. */
  function Wires(rows: seq<Row>): seq<Payload> {
    if rows == [] then []
    else Wires(rows[..|rows| - 1]) + (if rows[|rows| - 1].content.Wire? then [rows[|rows| - 1].content.payload] else [])
  }

  function Plains(rows: seq<Row>): seq<bytes> {
    if rows == [] then []
    else Plains(rows[..|rows| - 1]) + (if rows[|rows| - 1].content.Plain? then [rows[|rows| - 1].content.text] else [])
  }

  /** Draining keeps the order of the rows. With a session or a prekey everything goes out, one payload a row: a
      stored ciphertext as it is, a plaintext encrypted now. With neither, the ciphertexts go out, and the
      plaintexts wait. */
  lemma {:induction false} DrainingKeepsOrder(me: Peer, spk: PrivId, peer: Peer, keys: Option<Prekeys>, d: Draws, session: Option<State>,
                                              rows: seq<Row>)
    requires session.Some? ==> session.value.cks.Some?
    ensures var r := Drained(me, spk, peer, keys, d, session, rows);
            if session.Some? || keys.Some? then
              && r.held == [] && |r.sent| == |rows| && (session.Some? ==> r.session.Some?)
              && forall i | 0 <= i < |rows| ::
                   match rows[i].content
                   case Wire(payload) => r.sent[i] == payload
                   case Plain(text) => r.sent[i].kind == KIND_TEXT && Inside(r.sent[i]) == text
            else r.sent == Wires(rows) && r.held == Plains(rows) && r.session == None
  {
    if rows != [] {
      hide SendsOne;
      DrainingKeepsOrder(me, spk, peer, keys, d, session, rows[..|rows| - 1]);
    }
  }

  function Packets(peer: Peer, payloads: seq<Payload>): (packets: seq<Packet>)
    ensures |packets| == |payloads|
  {
    seq(|payloads|, i requires 0 <= i < |payloads| => Packet(peer, payloads[i]))
  }

  lemma OneSent(peer: Peer, p: Payload)
    ensures Packets(peer, [] + [p]) == [Packet(peer, p)] && Packets(peer, []) == []
  {
  }

  lemma OneHeld(pending: map<Peer, seq<bytes>>, peer: Peer, text: bytes)
    ensures HeldAll(pending, peer, [] + [text]) == Held(pending, peer, text) && Packets(peer, []) == []
  {
    assert [] + [text] == [text];
  }

  lemma PacketsJoin(net: seq<Packet>, peer: Peer, a: seq<Payload>, b: seq<Payload>)
    ensures net + Packets(peer, a + b) == net + Packets(peer, a) + Packets(peer, b)
  {
  }

  /** Texts added to those that wait for the prekey of `peer`. */
  function HeldAll(pending: map<Peer, seq<bytes>>, peer: Peer, texts: seq<bytes>): map<Peer, seq<bytes>> {
    if texts == [] then pending else pending[peer := (if peer in pending then pending[peer] else []) + texts]
  }

  lemma HeldJoins(pending: map<Peer, seq<bytes>>, peer: Peer, a: seq<bytes>, b: seq<bytes>)
    ensures HeldAll(pending, peer, a + b) == HeldAll(HeldAll(pending, peer, a), peer, b)
  {
    var already := if peer in pending then pending[peer] else [];
    assert already + (a + b) == already + a + b;
    assert (a == [] ==> a + b == b) && (b == [] ==> a + b == a);
  }

  /** Draining one row adds to what was drained before; under a session nothing else is needed. */
  lemma DrainedOneAdds(me: Peer, spk: PrivId, peer: Peer, keys: Option<Prekeys>, now: Option<Prekeys>, d: Draws, before: Drain, content: Content)
    requires (before.session.Some? ==> before.session.value.cks.Some?) && (before.session.None? ==> now == keys)
    ensures var r := DrainedOne(me, spk, peer, now, d, Drain(before.session, [], []), content);
            DrainedOne(me, spk, peer, keys, d, before, content) == Drain(r.session, before.sent + r.sent, before.held + r.held)
  {
    assert before.sent + [] == before.sent && before.held + [] == before.held;
  }

  lemma NothingDrained(me: Peer, spk: PrivId, peer: Peer, keys: Option<Prekeys>, d: Draws, session: Option<State>, net: seq<Packet>,
                       pending: map<Peer, seq<bytes>>)
    requires session.Some? ==> session.value.cks.Some?
    ensures var r := Drained(me, spk, peer, keys, d, session, []);
            r.session == session && net + Packets(peer, r.sent) == net && HeldAll(pending, peer, r.held) == pending
  {
  }

  /** From the rows drained so far to one more. */
  lemma DrainGoesOn(me: Peer, spk: PrivId, peer: Peer, keys: Option<Prekeys>, now: Option<Prekeys>, d: Draws, session: Option<State>,
                    rows: seq<Row>, row: Row, net: seq<Packet>, pending: map<Peer, seq<bytes>>)
    requires session.Some? ==> session.value.cks.Some?
    requires Drained(me, spk, peer, keys, d, session, rows).session.None? ==> now == keys
    ensures var before, after := Drained(me, spk, peer, keys, d, session, rows), Drained(me, spk, peer, keys, d, session, rows + [row]);
            var r := DrainedOne(me, spk, peer, now, d, Drain(before.session, [], []), row.content);
            && after.session == r.session
            && net + Packets(peer, after.sent) == net + Packets(peer, before.sent) + Packets(peer, r.sent)
            && HeldAll(pending, peer, after.held) == HeldAll(HeldAll(pending, peer, before.held), peer, r.held)
  {
    hide DrainedOne, Drained, HeldAll;
    DrainedLast(me, spk, peer, keys, d, session, rows, row);
    var before := Drained(me, spk, peer, keys, d, session, rows);
    DrainedOneAdds(me, spk, peer, keys, now, d, before, row.content);
    var r := DrainedOne(me, spk, peer, now, d, Drain(before.session, [], []), row.content);
    HeldJoins(pending, peer, before.held, r.held);
    PacketsJoin(net, peer, before.sent, r.sent);
  }

  lemma SoundRows(drops: seq<Packet>, net: seq<Packet>, outbox: seq<Row>, nextRow: nat, peer: Peer)
    requires TablesSound(drops, net, outbox, nextRow)
    ensures forall r :: r in RowsFor(outbox, peer) <==> r in outbox && r.to == peer
    ensures forall i, j | 0 <= i < j < |RowsFor(outbox, peer)| :: RowsFor(outbox, peer)[i] != RowsFor(outbox, peer)[j]
  {
    RowsForFinds(outbox, peer, nextRow);
  }

  // ----- what the mailbox holds -----

  /** A published copy is of something sent or queued, never of a second encryption. */
  ghost predicate Copied(drops: seq<Packet>, net: seq<Packet>, outbox: seq<Row>) {
    forall d | d in drops :: d in net || exists r :: r in outbox && r.to == d.to && r.content == Wire(d.payload)
  }

  lemma CopiedGrows(drops: seq<Packet>, net: seq<Packet>, outbox: seq<Row>, moreNet: seq<Packet>, moreRows: seq<Row>)
    requires Copied(drops, net, outbox)
    ensures Copied(drops, net + moreNet, outbox + moreRows)
  {
    forall d | d in drops && d !in net
      ensures exists r :: r in outbox + moreRows && r.to == d.to && r.content == Wire(d.payload)
    {
      var r :| r in outbox && r.to == d.to && r.content == Wire(d.payload);
      assert r in outbox + moreRows;
    }
  }

  lemma CopiedPublishes(drops: seq<Packet>, net: seq<Packet>, outbox: seq<Row>, row: Row)
    requires Copied(drops, net, outbox) && row.content.Wire?
    ensures Copied(drops + [Packet(row.to, row.content.payload)], net, outbox + [row])
  {
    CopiedGrows(drops, net, outbox, [], [row]);
    assert net + [] == net;
    assert row in outbox + [row];
  }

  lemma CopiedDeletes(drops: seq<Packet>, net: seq<Packet>, outbox: seq<Row>, row: Row, left: seq<Row>)
    requires Copied(drops, net, outbox)
    requires row.content.Wire? ==> Packet(row.to, row.content.payload) in net
    requires forall r | r in outbox && r != row :: r in left
    ensures Copied(drops, net, left)
  {
    forall d | d in drops && d !in net
      ensures exists r :: r in left && r.to == d.to && r.content == Wire(d.payload)
    {
      var r :| r in outbox && r.to == d.to && r.content == Wire(d.payload);
      assert r in left;
    }
  }

  /** The outbox and the mailbox, together with the network. */
  ghost predicate TablesSound(drops: seq<Packet>, net: seq<Packet>, outbox: seq<Row>, nextRow: nat) {
    && RowsSound(outbox, nextRow)
    && (forall r | r in outbox && r.content.Wire? :: r.content.payload.kind == KIND_TEXT)
    && Copied(drops, net, outbox)
  }

  // ----- one step of the accounts -----

  lemma Sends(drops: seq<Packet>, net: seq<Packet>, outbox: seq<Row>, nextRow: nat, pending: map<Peer, seq<bytes>>,
              p: Packet)
    requires TablesSound(drops, net, outbox, nextRow)
    ensures TablesSound(drops, net + [p], outbox, nextRow)
    ensures forall q :: Total(net + [p], outbox, pending, q) ==
              Total(net, outbox, pending, q) + (if p.payload.kind == KIND_TEXT then One(q, p.to, Inside(p.payload)) else multiset{})
  {
    CopiedGrows(drops, net, outbox, [p], []);
    assert outbox + [] == outbox;
    forall q ensures Total(net + [p], outbox, pending, q) ==
        Total(net, outbox, pending, q) + (if p.payload.kind == KIND_TEXT then One(q, p.to, Inside(p.payload)) else multiset{})
    {
      SentAppends(net, p, q);
    }
  }

  lemma Queues(drops: seq<Packet>, net: seq<Packet>, outbox: seq<Row>, nextRow: nat, pending: map<Peer, seq<bytes>>,
               row: Row)
    requires TablesSound(drops, net, outbox, nextRow)
    requires row.id == nextRow && (row.content.Wire? ==> row.content.payload.kind == KIND_TEXT)
    ensures TablesSound(if row.content.Wire? then drops + [Packet(row.to, row.content.payload)] else drops, net, outbox + [row], nextRow + 1)
    ensures forall q :: Total(net, outbox + [row], pending, q) == Total(net, outbox, pending, q) + One(q, row.to, TextOf(row.content))
  {
    hide Copied, Sent, Waiting;
    RowsAppend(outbox, row, nextRow + 1);
    if row.content.Wire? {
      CopiedPublishes(drops, net, outbox, row);
    } else {
      CopiedGrows(drops, net, outbox, [], [row]);
      assert net + [] == net;
    }
    forall q ensures Total(net, outbox + [row], pending, q) == Total(net, outbox, pending, q) + One(q, row.to, TextOf(row.content)) {
      QueuedAppends(outbox, row, q);
    }
  }

  function Held(pending: map<Peer, seq<bytes>>, peer: Peer, text: bytes): map<Peer, seq<bytes>> {
    pending[peer := (if peer in pending then pending[peer] else []) + [text]]
  }

  lemma Holds(net: seq<Packet>, outbox: seq<Row>, pending: map<Peer, seq<bytes>>, peer: Peer, text: bytes)
    ensures forall q :: Total(net, outbox, Held(pending, peer, text), q) == Total(net, outbox, pending, q) + One(q, peer, text)
  {
    forall q ensures Waiting(Held(pending, peer, text), q) == Waiting(pending, q) + One(q, peer, text) {
    }
  }

  /** Texts as the share of one peer. */
  function Share(q: Peer, peer: Peer, texts: seq<bytes>): multiset<bytes> {
    if q == peer then multiset(texts) else multiset{}
  }

  lemma ShareAppends(q: Peer, peer: Peer, texts: seq<bytes>, text: bytes)
    ensures Share(q, peer, texts + [text]) == Share(q, peer, texts) + One(q, peer, text)
  {
  }

  lemma NoShare(peer: Peer)
    ensures forall q :: Share(q, peer, []) == multiset{}
  {
  }

  lemma Releases(net: seq<Packet>, outbox: seq<Row>, pending: map<Peer, seq<bytes>>, peer: Peer)
    requires peer in pending
    ensures forall q :: Total(net, outbox, pending, q) == Total(net, outbox, pending - {peer}, q) + Share(q, peer, pending[peer])
  {
    forall q ensures Waiting(pending, q) == Waiting(pending - {peer}, q) + Share(q, peer, pending[peer]) {
    }
  }

  lemma DeletesOne(outbox: seq<Row>, nextRow: nat, row: Row)
    requires RowsSound(outbox, nextRow) && row in outbox
    ensures RowsSound(Deleted(outbox, row.id), nextRow)
    ensures forall r :: r in Deleted(outbox, row.id) <==> r in outbox && r != row
  {
    DeletedKeeps(outbox, row.id, nextRow);
    forall r | r in outbox && r.id == row.id ensures r == row {
      var i :| 0 <= i < |outbox| && outbox[i] == r;
      var j :| 0 <= j < |outbox| && outbox[j] == row;
    }
  }

  lemma Deletes(drops: seq<Packet>, net: seq<Packet>, outbox: seq<Row>, nextRow: nat, pending: map<Peer, seq<bytes>>,
                row: Row)
    requires TablesSound(drops, net, outbox, nextRow) && row in outbox
    requires row.content.Wire? ==> Packet(row.to, row.content.payload) in net
    ensures TablesSound(drops, net, Deleted(outbox, row.id), nextRow)
    ensures forall r :: r in Deleted(outbox, row.id) <==> r in outbox && r != row
    ensures forall q :: Total(net, outbox, pending, q) == Total(net, Deleted(outbox, row.id), pending, q) + One(q, row.to, TextOf(row.content))
  {
    hide RowsSound, Copied, Deleted, Sent, Waiting;
    var left := Deleted(outbox, row.id);
    DeletesOne(outbox, nextRow, row);
    CopiedDeletes(drops, net, outbox, row, left);
    forall q ensures Total(net, outbox, pending, q) == Total(net, left, pending, q) + One(q, row.to, TextOf(row.content)) {
      DeletedTakes(outbox, row, nextRow, q);
    }
  }

  // ----- sessions that can encrypt -----

  ghost predicate AllReady(sessions: map<Peer, State>) {
    forall p | p in sessions :: sessions[p].cks.Some?
  }

  /** Where texts that were held end up: they have gone out, in order, from the session at `mid`, and it has moved
      on in memory and in store; the inbox and the prekeys are as they were at `mid`. */
  ghost predicate Settled(me: Peer, spk: PrivId, peer: Peer, keys: Prekeys, d: Draws, mid: Desk, texts: seq<bytes>, before: seq<Packet>,
                          desk: Desk, net: seq<Packet>) {
    && DeskReady(mid)
    && var (st, payloads) := SendsAll(me, spk, peer, Some(keys), d, mid.Session(), texts);
       && net == before + Packets(peer, payloads)
       && desk == if texts == [] then mid else mid.(memory := st, stored := st)
  }

  lemma NothingSettled(me: Peer, spk: PrivId, peer: Peer, keys: Prekeys, d: Draws, mid: Desk, before: seq<Packet>)
    requires DeskReady(mid)
    ensures Settled(me, spk, peer, keys, d, mid, [], before, mid, before)
  {
  }

  lemma SendsOneIgnoresKeys(me: Peer, spk: PrivId, peer: Peer, keys: Option<Prekeys>, now: Option<Prekeys>, d: Draws, session: Option<State>, text: bytes)
    requires session.Some? && session.value.cks.Some?
    ensures SendsOne(me, spk, peer, keys, d, session, text) == SendsOne(me, spk, peer, now, d, session, text)
  {
  }

  lemma OneMoreSettled(me: Peer, spk: PrivId, peer: Peer, keys: Prekeys, now: Prekeys, d: Draws, mid: Desk, texts: seq<bytes>, before: seq<Packet>,
                       desk: Desk, net: seq<Packet>, text: bytes)
    requires Settled(me, spk, peer, keys, d, mid, texts, before, desk, net) && (desk.Session().None? ==> now == keys)
    ensures desk.Session().Some? ==> desk.Session().value.cks.Some?
    ensures var (st, p) := SendsOne(me, spk, peer, Some(now), d, desk.Session(), text);
            Settled(me, spk, peer, keys, d, mid, texts + [text], before, desk.(memory := Some(st), stored := Some(st)), net + [Packet(peer, p)])
  {
    hide SendsOne;
    var (session, payloads) := SendsAll(me, spk, peer, Some(keys), d, mid.Session(), texts);
    SendsLast(me, spk, peer, Some(keys), d, mid.Session(), texts, text);
    if session.Some? {
      SendsOneIgnoresKeys(me, spk, peer, Some(keys), Some(now), d, session, text);
    }
    var p := SendsOne(me, spk, peer, Some(keys), d, session, text).1;
    PacketsJoin(before, peer, payloads, [p]);
    OneSent(peer, p);
    assert [] + [p] == [p];
  }

  /** All the payloads are texts for `peer`. */
  lemma {:induction false} SendsTexts(drops: seq<Packet>, net: seq<Packet>, outbox: seq<Row>, nextRow: nat, pending: map<Peer, seq<bytes>>,
                                      peer: Peer, payloads: seq<Payload>, texts: seq<bytes>)
    requires TablesSound(drops, net, outbox, nextRow) && |payloads| == |texts|
    requires forall i | 0 <= i < |texts| :: payloads[i].kind == KIND_TEXT && Inside(payloads[i]) == texts[i]
    ensures TablesSound(drops, net + Packets(peer, payloads), outbox, nextRow)
    ensures forall q :: Total(net + Packets(peer, payloads), outbox, pending, q) == Total(net, outbox, pending, q) + Share(q, peer, texts)
  {
    hide TablesSound, Total, Share, Inside, One;
    if texts == [] {
      NoShare(peer);
      assert net + Packets(peer, []) == net;
    } else {
      var n := |texts| - 1;
      SendsTexts(drops, net, outbox, nextRow, pending, peer, payloads[..n], texts[..n]);
      assert payloads == payloads[..n] + [payloads[n]] && texts == texts[..n] + [texts[n]];
      PacketsJoin(net, peer, payloads[..n], [payloads[n]]);
      OneSent(peer, payloads[n]);
      assert [] + [payloads[n]] == [payloads[n]];
      Sends(drops, net + Packets(peer, payloads[..n]), outbox, nextRow, pending, Packet(peer, payloads[n]));
      forall q ensures Share(q, peer, texts) == Share(q, peer, texts[..n]) + One(q, peer, texts[n]) {
        ShareAppends(q, peer, texts[..n], texts[n]);
      }
    }
  }

  /** What waited for the prekey is on its way: no text has come or gone. */
  lemma HandedOver(me: Peer, spk: PrivId, peer: Peer, keys: Prekeys, d: Draws, mid: Desk, texts: seq<bytes>, drops: seq<Packet>,
                   before: seq<Packet>, outbox: seq<Row>, nextRow: nat, pending: map<Peer, seq<bytes>>, desk: Desk, net: seq<Packet>)
    requires Settled(me, spk, peer, keys, d, mid, texts, before, desk, net) && TablesSound(drops, before, outbox, nextRow)
    requires peer in pending && pending[peer] == texts
    ensures TablesSound(drops, net, outbox, nextRow)
    ensures forall q :: Total(net, outbox, pending - {peer}, q) == Total(before, outbox, pending, q)
  {
    hide TablesSound, Total, SendsAll, Share;
    var payloads := SendsAll(me, spk, peer, Some(keys), d, mid.Session(), texts).1;
    SendsTexts(drops, before, outbox, nextRow, pending - {peer}, peer, payloads, texts);
    Releases(before, outbox, pending, peer);
  }

  datatype Outcome = SentNow(payload: Payload) | QueuedWire(payload: Payload) | QueuedPlain | WaitingForPrekey

  class Node {
    const me: Peer
    const spk: PrivId
    const dk: nat
    var connected: set<Peer>
    var sessions: map<Peer, State>
    var persisted: map<Peer, State>
    var prekeys: map<Peer, Pub>
    var cachedOtpks: map<Peer, OtpkBundle>
    var cachedPqPrekeys: map<Peer, EncodedEk>
    var pqStore: map<Peer, EncodedEk>
    var otpks: map<int, PrivId>
    var pendingSends: map<Peer, seq<bytes>>
    var pendingRecvs: map<Peer, seq<Payload>>
    var inflight: set<Peer>
    var outbox: seq<Row>
    var nextRow: nat
    /** What was handed to the network, and what was published to the mailbox. */
    var net: seq<Packet>
    var drops: seq<Packet>
    var inbox: seq<(Peer, byte, bytes)>

    ghost var submitted: seq<(Peer, bytes)>

    /** The texts for `q` that are sent, queued or waiting. */
    ghost function InHand(q: Peer): multiset<bytes>
      reads this`net, this`outbox, this`pendingSends
    {
      Total(net, outbox, pendingSends, q)
    }

    /** Every session, in memory or on disk, can encrypt. */
    ghost predicate Ready()
      reads this`sessions, this`persisted
    {
      AllReady(sessions) && AllReady(persisted)
    }

    ghost predicate Sound()
      reads this`drops, this`net, this`outbox, this`nextRow
    {
      TablesSound(drops, net, outbox, nextRow)
    }

    ghost predicate Valid()
      reads this
    {
      Ready() && Sound() && forall q :: Submitted(submitted, q) == InHand(q)
    }

    constructor (me: Peer, spk: PrivId, dk: nat, otpks: map<int, PrivId>)
      ensures Valid() && submitted == []
    {
      this.me, this.spk, this.dk, this.otpks := me, spk, dk, otpks;
      connected, sessions, persisted, prekeys := {}, map[], map[], map[];
      cachedOtpks, cachedPqPrekeys, pqStore := map[], map[], map[];
      pendingSends, pendingRecvs, inflight := map[], map[], {};
      outbox, nextRow, net, drops, inbox, submitted := [], 0, [], [], [], [];
    }

    // ----- sessions -----

    /** The session with a peer: the one in memory, else the stored one. */
    function Session(peer: Peer): Option<State>
      reads this`sessions, this`persisted
    {
      if peer in sessions then Some(sessions[peer]) else if peer in persisted then Some(persisted[peer]) else None
    }

    /** The KEM key at hand for a peer: the cached one, else the stored one. */
    function EkFor(peer: Peer): Option<EncodedEk>
      reads this`cachedPqPrekeys, this`pqStore
    {
      if peer in cachedPqPrekeys then Some(cachedPqPrekeys[peer]) else if peer in pqStore then Some(pqStore[peer]) else None
    }

    /** What is at hand to start with a peer whose prekey is this one. */
    function KeysWith(peer: Peer, prekey: Pub): Prekeys
      reads this`cachedOtpks, this`cachedPqPrekeys, this`pqStore
    {
      Prekeys(prekey, if peer in cachedOtpks then Some(cachedOtpks[peer]) else None, EkFor(peer))
    }

    function KeysFor(peer: Peer): Option<Prekeys>
      reads this`prekeys, this`cachedOtpks, this`cachedPqPrekeys, this`pqStore
    {
      if peer in prekeys then Some(KeysWith(peer, prekeys[peer])) else None
    }

    function DeskFor(peer: Peer): Desk
      reads this`sessions, this`persisted, this`otpks, this`inbox
    {
      Desk(if peer in sessions then Some(sessions[peer]) else None, if peer in persisted then Some(persisted[peer]) else None, otpks, inbox)
    }

    predicate CanEncryptTo(peer: Peer)
      reads this`sessions, this`persisted, this`prekeys
    {
      peer in sessions || peer in persisted || peer in prekeys
    }

    method RestoreSession(peer: Peer) returns (ok: bool)
      requires Ready()
      modifies this`sessions
      ensures Ready()
      ensures ok <==> peer in old(sessions) || peer in persisted
      ensures ok <==> peer in sessions
      ensures sessions == if peer !in old(sessions) && peer in persisted then old(sessions)[peer := persisted[peer]] else old(sessions)
    {
      if peer in sessions {
        return true;
      }
      if peer in persisted {
        sessions := sessions[peer := persisted[peer]];
        return true;
      }
      ok := false;
    }

    /** `build_x3dh_hello`: a cached one-time prekey is spent by it. */
    method MakeHello(peer: Peer, prekey: Pub, d: Draws) returns (hello: Hello)
      requires Ready()
      modifies this`sessions, this`cachedOtpks, this`cachedPqPrekeys
      ensures Ready()
      ensures var otpk := if peer in old(cachedOtpks) then Some(old(cachedOtpks)[peer]) else None;
              var ek := if peer in old(cachedPqPrekeys) then Some(old(cachedPqPrekeys)[peer])
                        else if peer in pqStore then Some(pqStore[peer]) else None;
              var (h, st) := BuildHello(spk, prekey, otpk, ek, d);
              hello == h && sessions == old(sessions)[peer := st]
      ensures cachedOtpks == old(cachedOtpks) - {peer} && forall q :: EkFor(q) == old(EkFor(q))
    {
      if peer !in cachedPqPrekeys && peer in pqStore {
        cachedPqPrekeys := cachedPqPrekeys[peer := pqStore[peer]];
      }
      var ek := if peer in cachedPqPrekeys then Some(cachedPqPrekeys[peer]) else None;
      var otpk := if peer in cachedOtpks then Some(cachedOtpks[peer]) else None;
      cachedOtpks := cachedOtpks - {peer};
      var (h, st) := BuildHello(spk, prekey, otpk, ek, d);
      sessions := sessions[peer := st];
      hello := h;
    }

    method RatchetEncryptAndWrap(peer: Peer, body: bytes, hello: Option<Hello>, kind: byte) returns (r: Option<Payload>)
      requires Ready()
      modifies this`sessions
      ensures Ready()
      ensures r.Some? <==> peer in old(sessions)
      ensures match r
              case None => sessions == old(sessions)
              case Some(p) =>
                var (st, sent) := Encrypted(old(sessions)[peer], body, Signing.RatchetAd(me, peer));
                && sent.Success? && p == Wrapped(sent.value, kind, hello)
                && sessions == old(sessions)[peer := st]
                && Inside(p) == body
    {
      if peer !in sessions {
        return None;
      }
      var (st, sent) := Encrypted(sessions[peer], body, Signing.RatchetAd(me, peer));
      sessions := sessions[peer := st];
      match sent
      case Failure(_) => return None;
      case Success(msg) => r := Some(Wrapped(msg, kind, hello));
    }

    method PersistSession(peer: Peer)
      requires Ready()
      modifies this`persisted
      ensures Ready()
      ensures persisted == if peer in sessions then old(persisted)[peer := sessions[peer]] else old(persisted)
    {
      if peer in sessions {
        persisted := persisted[peer := sessions[peer]];
      }
    }

    method EncryptAndSendExisting(peer: Peer, body: bytes, hello: Option<Hello>, kind: byte) returns (payload: Payload)
      requires Ready() && peer in sessions
      modifies this`sessions, this`persisted, this`net
      ensures Ready() && peer in sessions
      ensures net == old(net) + [Packet(peer, payload)] && payload.kind == kind && Inside(payload) == body
      ensures var (st, sent) := Encrypted(old(sessions)[peer], body, Signing.RatchetAd(me, peer));
              sent.Success? && payload == Wrapped(sent.value, kind, hello) &&
              sessions == old(sessions)[peer := st] && persisted == old(persisted)[peer := st]
    {
      var wrapped := RatchetEncryptAndWrap(peer, body, hello, kind);
      payload := wrapped.value;
      net := net + [Packet(peer, payload)];
      PersistSession(peer);
    }

    /** Group traffic rides the same sessions and is dropped when there is none. */
    method DeliverKindToMember(peer: Peer, kind: byte, body: bytes) returns (ok: bool)
      requires Valid() && kind != KIND_TEXT
      modifies this`sessions, this`persisted, this`net
      ensures Valid()
      ensures ok <==> old(Session(peer)).Some?
      ensures !ok ==> net == old(net) && sessions == old(sessions) && persisted == old(persisted)
      ensures ok ==>
                var (st, sent) := Encrypted(old(Session(peer)).value, body, Signing.RatchetAd(me, peer));
                && sent.Success? && net == old(net) + [Packet(peer, Payload(sent.value, kind, None, None, None))]
                && sessions == old(sessions)[peer := st] && persisted == old(persisted)[peer := st]
    {
      hide Total, TablesSound, Encrypted, Submitted;
      ok := RestoreSession(peer);
      if ok {
        var payload := EncryptAndSendExisting(peer, body, None, kind);
        Sends(drops, old(net), outbox, nextRow, pendingSends, Packet(peer, payload));
      }
    }

    // ----- sending -----

    /** A session if there is one, else a fresh handshake from a cached prekey, else nothing. The session moves
        on in memory; it is not stored. */
    method TryEncryptOffline(peer: Peer, text: bytes, d: Draws) returns (r: Option<Payload>)
      requires Ready()
      modifies this`sessions, this`cachedOtpks, this`cachedPqPrekeys
      ensures Ready()
      ensures r.Some? <==> old(CanEncryptTo(peer))
      ensures r.None? ==> sessions == old(sessions)
      ensures r.Some? ==>
                && peer in sessions && sessions == old(sessions)[peer := sessions[peer]]
                && (sessions[peer], r.value) == SendsOne(me, spk, peer, old(KeysFor(peer)), d, old(Session(peer)), text)
      ensures cachedOtpks == if r.Some? && old(Session(peer)).None? then old(cachedOtpks) - {peer} else old(cachedOtpks)
      ensures forall q :: EkFor(q) == old(EkFor(q))
    {
      hide Encrypted, BuildHello;
      var restored := RestoreSession(peer);
      if restored {
        r := RatchetEncryptAndWrap(peer, text, None, KIND_TEXT);
        return;
      }
      if peer !in prekeys {
        return None;
      }
      var hello := MakeHello(peer, prekeys[peer], d);
      r := RatchetEncryptAndWrap(peer, text, Some(hello), KIND_TEXT);
    }

    /** `try_send_or_queue`. Wherever the text goes, it goes to one place. */
    method TrySendOrQueue(peer: Peer, text: bytes, d: Draws) returns (outcome: Outcome)
      requires Ready() && Sound()
      modifies this`sessions, this`persisted, this`cachedOtpks, this`cachedPqPrekeys
      modifies this`net, this`drops, this`outbox, this`nextRow, this`pendingSends, this`inflight
      ensures Ready() && Sound()
      ensures match outcome
              case SentNow(_) => peer in connected && old(CanEncryptTo(peer))
              case WaitingForPrekey => peer in connected && !old(CanEncryptTo(peer))
              case QueuedWire(_) => peer !in connected && old(CanEncryptTo(peer))
              case QueuedPlain => peer !in connected && !old(CanEncryptTo(peer))
      ensures outcome.SentNow? || outcome.QueuedWire? ==>
                && peer in sessions && sessions == old(sessions)[peer := sessions[peer]]
                && (sessions[peer], outcome.payload) == SendsOne(me, spk, peer, old(KeysFor(peer)), d, old(Session(peer)), text)
      ensures outcome.QueuedPlain? || outcome.WaitingForPrekey? ==> sessions == old(sessions) && cachedOtpks == old(cachedOtpks)
      ensures persisted == if outcome.SentNow? then old(persisted)[peer := sessions[peer]] else old(persisted)
      ensures old(Session(peer)).Some? ==> cachedOtpks == old(cachedOtpks)
      ensures forall q :: EkFor(q) == old(EkFor(q))
      ensures net == if outcome.SentNow? then old(net) + [Packet(peer, outcome.payload)] else old(net)
      ensures drops == if outcome.QueuedWire? then old(drops) + [Packet(peer, outcome.payload)] else old(drops)
      ensures outbox == match outcome
                        case QueuedWire(p) => old(outbox) + [Row(old(nextRow), peer, Wire(p))]
                        case QueuedPlain => old(outbox) + [Row(old(nextRow), peer, Plain(text))]
                        case _ => old(outbox)
      ensures pendingSends == if outcome.WaitingForPrekey? then Held(old(pendingSends), peer, text) else old(pendingSends)
      ensures inflight == if outcome.WaitingForPrekey? then old(inflight) + {peer} else old(inflight)
      ensures forall q :: InHand(q) == old(InHand(q)) + One(q, peer, text)
    {
      hide Total, TablesSound, SendsOne;
      if peer !in connected {
        outcome := QueueOffline(peer, text, d);
      } else {
        outcome := SendConnected(peer, text, d);
      }
      match outcome
      case SentNow(p) => Sends(drops, old(net), outbox, nextRow, pendingSends, Packet(peer, p));
      case QueuedWire(p) => Queues(old(drops), net, old(outbox), old(nextRow), pendingSends, Row(old(nextRow), peer, Wire(p)));
      case QueuedPlain => Queues(drops, net, old(outbox), old(nextRow), pendingSends, Row(old(nextRow), peer, Plain(text)));
      case WaitingForPrekey => Holds(net, outbox, old(pendingSends), peer, text);
    }

    /** The peer is not connected: the ciphertext, made once, goes to the outbox and to the mailbox; without
        a way to encrypt, the plaintext goes to the outbox alone. */
    method QueueOffline(peer: Peer, text: bytes, d: Draws) returns (outcome: Outcome)
      requires Ready()
      modifies this`sessions, this`cachedOtpks, this`cachedPqPrekeys, this`drops, this`outbox, this`nextRow
      ensures Ready() && nextRow == old(nextRow) + 1
      ensures match outcome
              case QueuedWire(p) =>
                && old(CanEncryptTo(peer)) && drops == old(drops) + [Packet(peer, p)]
                && outbox == old(outbox) + [Row(old(nextRow), peer, Wire(p))]
                && peer in sessions && sessions == old(sessions)[peer := sessions[peer]]
                && (sessions[peer], p) == SendsOne(me, spk, peer, old(KeysFor(peer)), d, old(Session(peer)), text)
              case QueuedPlain =>
                && !old(CanEncryptTo(peer)) && drops == old(drops) && sessions == old(sessions)
                && outbox == old(outbox) + [Row(old(nextRow), peer, Plain(text))]
              case _ => false
      ensures cachedOtpks == if outcome.QueuedWire? && old(Session(peer)).None? then old(cachedOtpks) - {peer} else old(cachedOtpks)
      ensures forall q :: EkFor(q) == old(EkFor(q))
    {
      hide SendsOne;
      var wire := TryEncryptOffline(peer, text, d);
      var content := if wire.Some? then Wire(wire.value) else Plain(text);
      outbox := outbox + [Row(nextRow, peer, content)];
      nextRow := nextRow + 1;
      if wire.Some? {
        drops := drops + [Packet(peer, wire.value)];
        outcome := QueuedWire(wire.value);
      } else {
        outcome := QueuedPlain;
      }
    }

    method SendConnected(peer: Peer, text: bytes, d: Draws) returns (outcome: Outcome)
      requires Ready()
      modifies this`sessions, this`persisted, this`cachedOtpks, this`cachedPqPrekeys
      modifies this`net, this`pendingSends, this`inflight
      ensures Ready()
      ensures match outcome
              case SentNow(p) =>
                && old(CanEncryptTo(peer)) && net == old(net) + [Packet(peer, p)]
                && pendingSends == old(pendingSends) && inflight == old(inflight)
                && peer in sessions && sessions == old(sessions)[peer := sessions[peer]] && persisted == old(persisted)[peer := sessions[peer]]
                && (sessions[peer], p) == SendsOne(me, spk, peer, old(KeysFor(peer)), d, old(Session(peer)), text)
              case WaitingForPrekey =>
                && !old(CanEncryptTo(peer)) && net == old(net) && inflight == old(inflight) + {peer}
                && pendingSends == Held(old(pendingSends), peer, text)
                && sessions == old(sessions) && persisted == old(persisted)
              case _ => false
      ensures cachedOtpks == if outcome.SentNow? && old(Session(peer)).None? then old(cachedOtpks) - {peer} else old(cachedOtpks)
      ensures forall q :: EkFor(q) == old(EkFor(q))
    {
      hide SendsOne, Encrypted, BuildHello;
      var restored := RestoreSession(peer);
      if !restored && peer !in prekeys {
        pendingSends := pendingSends[peer := (if peer in pendingSends then pendingSends[peer] else []) + [text]];
        inflight := inflight + {peer};
        return WaitingForPrekey;
      }
      var payload: Payload;
      if restored {
        payload := SendUnderSession(peer, text, old(KeysFor(peer)), d);
      } else {
        payload := BootstrapInitiatorAndSend(peer, text, prekeys[peer], d);
      }
      outcome := SentNow(payload);
    }

    /** A text under the session there is; what is at hand for a new one does not matter. */
    method SendUnderSession(peer: Peer, text: bytes, ghost keys: Option<Prekeys>, ghost d: Draws) returns (payload: Payload)
      requires Ready() && peer in sessions
      modifies this`sessions, this`persisted, this`net
      ensures Ready() && net == old(net) + [Packet(peer, payload)]
      ensures peer in sessions && sessions == old(sessions)[peer := sessions[peer]] && persisted == old(persisted)[peer := sessions[peer]]
      ensures (sessions[peer], payload) == SendsOne(me, spk, peer, keys, d, Some(old(sessions)[peer]), text)
    {
      payload := EncryptAndSendExisting(peer, text, None, KIND_TEXT);
    }

    method BootstrapInitiatorAndSend(peer: Peer, text: bytes, prekey: Pub, d: Draws) returns (payload: Payload)
      requires Ready()
      modifies this`sessions, this`persisted, this`net, this`cachedOtpks, this`cachedPqPrekeys
      ensures Ready() && net == old(net) + [Packet(peer, payload)]
      ensures peer in sessions && sessions == old(sessions)[peer := sessions[peer]] && persisted == old(persisted)[peer := sessions[peer]]
      ensures (sessions[peer], payload) == SendsOne(me, spk, peer, Some(old(KeysWith(peer, prekey))), d, None, text)
      ensures cachedOtpks == old(cachedOtpks) - {peer} && forall q :: EkFor(q) == old(EkFor(q))
    {
      hide Encrypted, BuildHello;
      var hello := MakeHello(peer, prekey, d);
      payload := EncryptAndSendExisting(peer, text, Some(hello), KIND_TEXT);
    }

    /** The user submits a text. */
    method Submit(peer: Peer, text: bytes, d: Draws) returns (outcome: Outcome)
      requires Valid()
      modifies this`sessions, this`persisted, this`cachedOtpks, this`cachedPqPrekeys, this`submitted
      modifies this`net, this`drops, this`outbox, this`nextRow, this`pendingSends, this`inflight
      ensures Valid() && submitted == old(submitted) + [(peer, text)]
      ensures outcome.SentNow? <==> peer in connected && old(CanEncryptTo(peer))
      ensures outcome.QueuedWire? <==> peer !in connected && old(CanEncryptTo(peer))
      ensures outcome.WaitingForPrekey? <==> peer in connected && !old(CanEncryptTo(peer))
      ensures outcome.SentNow? || outcome.QueuedWire? ==>
                && peer in sessions && sessions == old(sessions)[peer := sessions[peer]]
                && (sessions[peer], outcome.payload) == SendsOne(me, spk, peer, old(KeysFor(peer)), d, old(Session(peer)), text)
      ensures outcome.QueuedPlain? || outcome.WaitingForPrekey? ==> sessions == old(sessions)
      ensures net == if outcome.SentNow? then old(net) + [Packet(peer, outcome.payload)] else old(net)
      ensures drops == if outcome.QueuedWire? then old(drops) + [Packet(peer, outcome.payload)] else old(drops)
      ensures outbox == match outcome
                        case QueuedWire(p) => old(outbox) + [Row(old(nextRow), peer, Wire(p))]
                        case QueuedPlain => old(outbox) + [Row(old(nextRow), peer, Plain(text))]
                        case _ => old(outbox)
      ensures pendingSends == if outcome.WaitingForPrekey? then Held(old(pendingSends), peer, text) else old(pendingSends)
    {
      hide Total, TablesSound, Submitted, Held, SendsOne;
      outcome := TrySendOrQueue(peer, text, d);
      submitted := submitted + [(peer, text)];
      forall q ensures Submitted(submitted, q) == InHand(q) {
        SubmittedAppends(old(submitted), peer, text, q);
      }
    }

    /** A connection drains the outbox: every row for the peer leaves it, in order; what can go out does, and
        a plaintext that cannot be encrypted waits for the prekey. Nothing is lost and nothing is sent twice. */
    method Connect(peer: Peer, d: Draws)
      requires Valid()
      modifies this`connected, this`sessions, this`persisted, this`cachedOtpks, this`cachedPqPrekeys
      modifies this`net, this`drops, this`outbox, this`nextRow, this`pendingSends, this`inflight
      ensures Valid() && connected == old(connected) + {peer}
      ensures forall q :: InHand(q) == old(InHand(q))
      ensures forall r :: r in outbox <==> r in old(outbox) && r.to != peer
      ensures var r := Drained(me, spk, peer, old(KeysFor(peer)), d, old(Session(peer)), RowsFor(old(outbox), peer));
              && net == old(net) + Packets(peer, r.sent) && pendingSends == HeldAll(old(pendingSends), peer, r.held)
              && Session(peer) == r.session && drops == old(drops)
    {
      hide Total, TablesSound, Submitted, AllReady, Drained, HeldAll, RowsFor;
      connected := connected + {peer};
      DrainOutboxFor(peer, d);
    }

    method DrainOutboxFor(peer: Peer, d: Draws)
      requires Ready() && Sound() && peer in connected
      modifies this`sessions, this`persisted, this`cachedOtpks, this`cachedPqPrekeys
      modifies this`net, this`drops, this`outbox, this`nextRow, this`pendingSends, this`inflight
      ensures Ready() && Sound()
      ensures forall q :: InHand(q) == old(InHand(q))
      ensures forall r :: r in outbox <==> r in old(outbox) && r.to != peer
      ensures var r := Drained(me, spk, peer, old(KeysFor(peer)), d, old(Session(peer)), RowsFor(old(outbox), peer));
              && net == old(net) + Packets(peer, r.sent) && pendingSends == HeldAll(old(pendingSends), peer, r.held)
              && Session(peer) == r.session && drops == old(drops)
    {
      hide Total, TablesSound, RowsFor, Drained, DrainedOne, HeldAll, Packets, SendsOne;
      var entries := RowsFor(outbox, peer);
      SoundRows(drops, net, outbox, nextRow, peer);
      ghost var keys, first := KeysFor(peer), Session(peer);
      NothingDrained(me, spk, peer, keys, d, first, net, pendingSends);
      assert entries[..0] == [];
      for i := 0 to |entries|
        invariant Ready() && Sound()
        invariant forall q :: InHand(q) == old(InHand(q))
        invariant forall r :: r in outbox <==> r in old(outbox) && r !in entries[..i]
        invariant var r := Drained(me, spk, peer, keys, d, first, entries[..i]);
                  && net == old(net) + Packets(peer, r.sent) && pendingSends == HeldAll(old(pendingSends), peer, r.held)
                  && Session(peer) == r.session && drops == old(drops)
        invariant Session(peer).None? ==> KeysFor(peer) == keys
      {
        var row := entries[i];
        assert row in entries && row !in entries[..i];
        assert entries[..i + 1] == entries[..i] + [row];
        DrainGoesOn(me, spk, peer, keys, KeysFor(peer), d, first, entries[..i], row, old(net), old(pendingSends));
        DrainRow(row, d);
      }
      assert entries[..|entries|] == entries;
    }

    /** The row is deleted only after its content was handed off. */
    method DrainRow(row: Row, d: Draws)
      requires Ready() && Sound() && row in outbox && row.to in connected
      modifies this`sessions, this`persisted, this`cachedOtpks, this`cachedPqPrekeys
      modifies this`net, this`drops, this`outbox, this`nextRow, this`pendingSends, this`inflight
      ensures Ready() && Sound()
      ensures forall q :: InHand(q) == old(InHand(q))
      ensures forall r :: r in outbox <==> r in old(outbox) && r != row
      ensures var r := DrainedOne(me, spk, row.to, old(KeysFor(row.to)), d, Drain(old(Session(row.to)), [], []), row.content);
              && net == old(net) + Packets(row.to, r.sent) && pendingSends == HeldAll(old(pendingSends), row.to, r.held)
              && Session(row.to) == r.session && drops == old(drops)
      ensures Session(row.to).None? ==> KeysFor(row.to) == old(KeysFor(row.to))
    {
      hide Total, Copied, RowsSound, DrainedOne, HeldAll;
      HandOff(row, d);
      Deletes(drops, net, outbox, nextRow, pendingSends, row);
      outbox := Deleted(outbox, row.id);
      forall q ensures InHand(q) == old(InHand(q)) {
        Cancels(InHand(q), old(InHand(q)), One(q, row.to, TextOf(row.content)));
      }
    }

    /** A stored ciphertext goes out as it is; a plaintext is submitted over again. */
    method HandOff(row: Row, d: Draws)
      requires Ready() && Sound() && row in outbox && row.to in connected
      modifies this`sessions, this`persisted, this`cachedOtpks, this`cachedPqPrekeys
      modifies this`net, this`drops, this`outbox, this`nextRow, this`pendingSends, this`inflight
      ensures Ready() && Sound() && outbox == old(outbox) && drops == old(drops)
      ensures row.content.Wire? ==> Packet(row.to, row.content.payload) in net
      ensures forall q :: InHand(q) == old(InHand(q)) + One(q, row.to, TextOf(row.content))
      ensures var r := DrainedOne(me, spk, row.to, old(KeysFor(row.to)), d, Drain(old(Session(row.to)), [], []), row.content);
              && net == old(net) + Packets(row.to, r.sent) && pendingSends == HeldAll(old(pendingSends), row.to, r.held)
              && Session(row.to) == r.session
      ensures Session(row.to).None? ==> KeysFor(row.to) == old(KeysFor(row.to))
    {
      hide Total, Copied, RowsSound, SendsOne, Held;
      match row.content {
        case Wire(payload) =>
          Sends(drops, net, outbox, nextRow, pendingSends, Packet(row.to, payload));
          net := net + [Packet(row.to, payload)];
          OneSent(row.to, payload);
        case Plain(text) =>
          var outcome := TrySendOrQueue(row.to, text, d);
          if outcome.SentNow? {
            OneSent(row.to, outcome.payload);
          } else {
            OneHeld(old(pendingSends), row.to, text);
          }
      }
    }

    method Disconnect(peer: Peer)
      requires Valid()
      modifies this`connected
      ensures Valid() && connected == old(connected) - {peer}
    {
      hide Total, TablesSound, Submitted, AllReady;
      connected := connected - {peer};
    }

    // ----- receiving -----

    method DecryptAndStore(peer: Peer, payload: Payload, drawn: PrivId) returns (ok: bool)
      requires Ready() && peer in sessions
      modifies this`sessions, this`persisted, this`inbox
      ensures Ready()
      ensures var (st, r) := Decrypted(old(sessions)[peer], drawn, payload.msg, Signing.RatchetAd(peer, me));
              && sessions == old(sessions)[peer := st] && ok == r.Success?
              && persisted == (if ok then old(persisted)[peer := st] else old(persisted))
              && inbox == (if ok then old(inbox) + [(peer, payload.kind, r.value)] else old(inbox))
    {
      var (st, r) := Decrypted(sessions[peer], drawn, payload.msg, Signing.RatchetAd(peer, me));
      ReceivingKeepsSending(sessions[peer], drawn, payload.msg, Signing.RatchetAd(peer, me));
      hide Decrypted;
      sessions := sessions[peer := st];
      ok := r.Success?;
      if ok {
        PersistSession(peer);
        inbox := inbox + [(peer, payload.kind, r.value)];
      }
    }

    /** A responder session stays only if the first message opened; then a named one-time prekey is gone. */
    method BootstrapResponderAndDecrypt(peer: Peer, eph: Pub, prekey: Pub, payload: Payload,
                        drawn: PrivId) returns (ok: bool)
      requires Ready() && peer !in sessions
      modifies this`sessions, this`persisted, this`otpks, this`inbox
      ensures Ready()
      ensures ok <==> peer in sessions
      ensures !ok ==> sessions == old(sessions) && persisted == old(persisted) && otpks == old(otpks) && inbox == old(inbox)
      ensures var opening := Answered(spk, dk, old(otpks), prekey, Hello(eph, payload.otpkId, payload.kemCt), drawn, payload.msg,
                                      Signing.RatchetAd(peer, me));
              && ok == opening.Some?
              && (ok ==> sessions == old(sessions)[peer := opening.value.0] && persisted == old(persisted)[peer := opening.value.0] &&
                         inbox == old(inbox) + [(peer, payload.kind, opening.value.1)] &&
                         otpks == if payload.otpkId.Some? then old(otpks) - {payload.otpkId.value} else old(otpks))
    {
      var sk := ResponderSecret(spk, dk, otpks, prekey, Hello(eph, payload.otpkId, payload.kemCt));
      if sk.Failure? {
        return false;
      }
      var (st, r) := Decrypted(NewResponder(sk.value, spk), drawn, payload.msg, Signing.RatchetAd(peer, me));
      ok := r.Success?;
      if ok {
        FirstMessageGivesSending(sk.value, spk, drawn, payload.msg, Signing.RatchetAd(peer, me));
        hide Decrypted, ResponderSecret;
        sessions := sessions[peer := st];
        PersistSession(peer);
        inbox := inbox + [(peer, payload.kind, r.value)];
        if payload.otpkId.Some? {
          otpks := otpks - {payload.otpkId.value};
        }
      }
    }

    /** The decrypting end of an incoming message whose sender and envelope have been verified. With a session
        the session decides, whatever hello the message carries; without one a hello is needed, and the
        sender's prekey: it is used if known, and otherwise the message is held until it comes. */
    method ProcessIncomingDm(peer: Peer, payload: Payload, drawn: PrivId) returns (ok: bool)
      requires Valid()
      modifies this`sessions, this`persisted, this`otpks, this`inbox, this`pendingRecvs, this`inflight
      ensures Valid()
      ensures var ad := Signing.RatchetAd(peer, me);
              if peer in old(sessions) || peer in old(persisted) then
                var st0 := if peer in old(sessions) then old(sessions)[peer] else old(persisted)[peer];
                var (st, r) := Decrypted(st0, drawn, payload.msg, ad);
                && ok == r.Success? && sessions == old(sessions)[peer := st]
                && persisted == (if ok then old(persisted)[peer := st] else old(persisted))
                && inbox == (if ok then old(inbox) + [(peer, payload.kind, r.value)] else old(inbox))
                && otpks == old(otpks) && pendingRecvs == old(pendingRecvs) && inflight == old(inflight)
              else if payload.eph.Some? && peer in prekeys then
                var hello := Hello(payload.eph.value, payload.otpkId, payload.kemCt);
                var opening := Answered(spk, dk, old(otpks), prekeys[peer], hello, drawn, payload.msg, ad);
                && ok == opening.Some? && pendingRecvs == old(pendingRecvs) && inflight == old(inflight)
                && (if ok then
                      && sessions == old(sessions)[peer := opening.value.0] && persisted == old(persisted)[peer := opening.value.0]
                      && inbox == old(inbox) + [(peer, payload.kind, opening.value.1)]
                      && otpks == (if payload.otpkId.Some? then old(otpks) - {payload.otpkId.value} else old(otpks))
                    else sessions == old(sessions) && persisted == old(persisted) && inbox == old(inbox) && otpks == old(otpks))
              else
                && !ok && sessions == old(sessions) && persisted == old(persisted) && inbox == old(inbox) && otpks == old(otpks)
                && pendingRecvs == (if payload.eph.None? then old(pendingRecvs)
                                    else old(pendingRecvs)[peer := (if peer in old(pendingRecvs) then old(pendingRecvs)[peer] else []) + [payload]])
                && inflight == (if payload.eph.None? then old(inflight) else old(inflight) + {peer})
    {
      hide Decrypted, Answered, Submitted, Total, TablesSound, AllReady, Signing.RatchetAd;
      var restored := RestoreSession(peer);
      if restored {
        ok := DecryptAndStore(peer, payload, drawn);
      } else if payload.eph.None? {
        ok := false;
      } else if peer in prekeys {
        ok := BootstrapResponderAndDecrypt(peer, payload.eph.value, prekeys[peer], payload, drawn);
      } else {
        HoldForPrekey(peer, payload);
        ok := false;
      }
      assert Ready();
    }

    method HoldForPrekey(peer: Peer, payload: Payload)
      modifies this`pendingRecvs, this`inflight
      ensures pendingRecvs == old(pendingRecvs)[peer := (if peer in old(pendingRecvs) then old(pendingRecvs)[peer] else []) + [payload]]
      ensures inflight == old(inflight) + {peer}
    {
      pendingRecvs := pendingRecvs[peer := (if peer in pendingRecvs then pendingRecvs[peer] else []) + [payload]];
      inflight := inflight + {peer};
    }

    // ----- a prekey arrives -----

    ghost function Owed(peer: Peer): seq<bytes>
      reads this`pendingSends
    {
      if peer in pendingSends then pendingSends[peer] else []
    }

    ghost function Unread(peer: Peer): seq<Payload>
      reads this`pendingRecvs
    {
      if peer in pendingRecvs then pendingRecvs[peer] else []
    }

    function Self(): Own {
      Own(me, spk, dk)
    }

    /** Nothing but the sessions with one peer has changed since there were these. */
    ghost predicate OthersAs(peer: Peer, memory: map<Peer, State>, stored: map<Peer, State>)
      reads this`sessions, this`persisted
    {
      sessions - {peer} == memory - {peer} && persisted - {peer} == stored - {peer}
    }

    /** What is at hand to start with the peer once its response is kept. */
    function KeysOf(peer: Peer, prekey: Pub, otpk: Option<OtpkBundle>, ek: Option<EncodedEk>): Prekeys
      reads this`cachedOtpks, this`cachedPqPrekeys, this`pqStore
    {
      Prekeys(prekey, if otpk.Some? then otpk else if peer in cachedOtpks then Some(cachedOtpks[peer]) else None,
              if ek.Some? then ek else EkFor(peer))
    }

    /** A verified prekey response: the keys are kept, what was held from the peer is taken in, and every text
        that was waiting goes out. */
    method PrekeyArrives(peer: Peer, prekey: Pub, otpk: Option<OtpkBundle>, ek: Option<EncodedEk>,
                        draw: nat -> PrivId, d: Draws)
      requires Valid()
      modifies this`prekeys, this`cachedOtpks, this`cachedPqPrekeys, this`pqStore, this`inflight
      modifies this`sessions, this`persisted, this`otpks, this`inbox, this`pendingRecvs, this`pendingSends, this`net
      ensures Valid()
      ensures pendingSends == old(pendingSends) - {peer} && pendingRecvs == old(pendingRecvs) - {peer} && inflight == old(inflight) - {peer}
      ensures prekeys == old(prekeys)[peer := prekey] && CanEncryptTo(peer)
      ensures pqStore == if ek.Some? then old(pqStore)[peer := ek.value] else old(pqStore)
      ensures forall q :: EkFor(q) == if q == peer && ek.Some? then ek else old(EkFor(q))
      ensures forall q :: InHand(q) == old(InHand(q))
      ensures var keys := old(KeysOf(peer, prekey, otpk, ek));
              var mid := TakenAll(Self(), peer, prekey, old(DeskFor(peer)), old(Unread(peer)), draw);
              && Settled(me, spk, peer, keys, d, mid, old(Owed(peer)), old(net), DeskFor(peer), net)
              && OthersAs(peer, old(sessions), old(persisted)) && cachedOtpks - {peer} == old(cachedOtpks) - {peer}
              && KeysWith(peer, prekey) == (if old(Owed(peer)) != [] && mid.Session().None? then keys.(otpk := None) else keys)
    {
      hide Total, TablesSound, Submitted, AllReady, TakenAll, Settled;
      KeepAndProcess(peer, prekey, otpk, ek, draw, d);
    }

    /** The same, on sessions and tables. */
    method KeepAndProcess(peer: Peer, prekey: Pub, otpk: Option<OtpkBundle>, ek: Option<EncodedEk>,
                        draw: nat -> PrivId, d: Draws)
      requires Ready() && Sound()
      modifies this`prekeys, this`cachedOtpks, this`cachedPqPrekeys, this`pqStore, this`inflight
      modifies this`sessions, this`persisted, this`otpks, this`inbox, this`pendingRecvs, this`pendingSends, this`net
      ensures Ready() && Sound()
      ensures pendingSends == old(pendingSends) - {peer} && pendingRecvs == old(pendingRecvs) - {peer} && inflight == old(inflight) - {peer}
      ensures prekeys == old(prekeys)[peer := prekey] && CanEncryptTo(peer)
      ensures pqStore == if ek.Some? then old(pqStore)[peer := ek.value] else old(pqStore)
      ensures forall q :: EkFor(q) == if q == peer && ek.Some? then ek else old(EkFor(q))
      ensures forall q :: InHand(q) == old(InHand(q))
      ensures var keys := old(KeysOf(peer, prekey, otpk, ek));
              var mid := TakenAll(Self(), peer, prekey, old(DeskFor(peer)), old(Unread(peer)), draw);
              && Settled(me, spk, peer, keys, d, mid, old(Owed(peer)), old(net), DeskFor(peer), net)
              && OthersAs(peer, old(sessions), old(persisted)) && cachedOtpks - {peer} == old(cachedOtpks) - {peer}
              && KeysWith(peer, prekey) == (if old(Owed(peer)) != [] && mid.Session().None? then keys.(otpk := None) else keys)
    {
      hide Total, TablesSound, TakenAll, Settled, KeysWith, KeysOf, EkFor, Ready, Sound, InHand, DeskFor, Owed, Unread, OthersAs;
      KeepPrekey(peer, prekey, otpk, ek);
      inflight := inflight - {peer};
      ProcessPending(peer, prekey, draw, d);
    }

    /** What a verified response leaves in the caches. */
    method KeepPrekey(peer: Peer, prekey: Pub, otpk: Option<OtpkBundle>, ek: Option<EncodedEk>)
      modifies this`prekeys, this`cachedOtpks, this`cachedPqPrekeys, this`pqStore
      ensures prekeys == old(prekeys)[peer := prekey]
      ensures cachedOtpks == if otpk.Some? then old(cachedOtpks)[peer := otpk.value] else old(cachedOtpks)
      ensures cachedPqPrekeys == if ek.Some? then old(cachedPqPrekeys)[peer := ek.value] else old(cachedPqPrekeys)
      ensures pqStore == if ek.Some? then old(pqStore)[peer := ek.value] else old(pqStore)
      ensures forall q :: EkFor(q) == if q == peer && ek.Some? then ek else old(EkFor(q))
      ensures KeysWith(peer, prekey) == old(KeysOf(peer, prekey, otpk, ek)) && cachedOtpks - {peer} == old(cachedOtpks) - {peer}
    {
      prekeys := prekeys[peer := prekey];
      if otpk.Some? {
        cachedOtpks := cachedOtpks[peer := otpk.value];
      }
      if ek.Some? {
        cachedPqPrekeys := cachedPqPrekeys[peer := ek.value];
        pqStore := pqStore[peer := ek.value];
      }
    }

    /** `process_pending`: what arrived first is tried first, so that a session exists for what is to be sent;
        then every held text goes out, in the order it was submitted. */
    method ProcessPending(peer: Peer, prekey: Pub, draw: nat -> PrivId, d: Draws)
      requires Ready() && Sound()
      modifies this`sessions, this`persisted, this`otpks, this`inbox, this`pendingRecvs, this`pendingSends
      modifies this`net, this`cachedOtpks, this`cachedPqPrekeys
      ensures Ready() && Sound()
      ensures pendingSends == old(pendingSends) - {peer} && pendingRecvs == old(pendingRecvs) - {peer}
      ensures forall q :: InHand(q) == old(InHand(q))
      ensures forall q :: EkFor(q) == old(EkFor(q))
      ensures var mid := TakenAll(Self(), peer, prekey, old(DeskFor(peer)), old(Unread(peer)), draw);
              && Settled(me, spk, peer, old(KeysWith(peer, prekey)), d, mid, old(Owed(peer)), old(net), DeskFor(peer), net)
              && OthersAs(peer, old(sessions), old(persisted))
              && cachedOtpks == (if old(Owed(peer)) != [] && mid.Session().None? then old(cachedOtpks) - {peer} else old(cachedOtpks))
              && KeysWith(peer, prekey) ==
                   (if old(Owed(peer)) != [] && mid.Session().None? then old(KeysWith(peer, prekey)).(otpk := None) else old(KeysWith(peer, prekey)))
    {
      hide Total, TablesSound, TakenAll, Settled;
      TakeWaiting(peer, prekey, draw);
      SendWaiting(peer, prekey, d);
    }

    method TakeWaiting(peer: Peer, prekey: Pub, draw: nat -> PrivId)
      requires Ready()
      modifies this`sessions, this`persisted, this`otpks, this`inbox, this`pendingRecvs
      ensures Ready() && pendingRecvs == old(pendingRecvs) - {peer}
      ensures DeskFor(peer) == TakenAll(Self(), peer, prekey, old(DeskFor(peer)), old(Unread(peer)), draw)
      ensures OthersAs(peer, old(sessions), old(persisted))
    {
      hide TakenAll;
      if peer in pendingRecvs {
        var payloads := pendingRecvs[peer];
        pendingRecvs := pendingRecvs - {peer};
        ReceiveHeld(peer, prekey, payloads, draw);
      } else {
        NothingTaken(Self(), peer, prekey, DeskFor(peer), draw);
      }
    }

    method SendWaiting(peer: Peer, prekey: Pub, d: Draws)
      requires Ready() && Sound()
      modifies this`sessions, this`persisted, this`pendingSends, this`net, this`cachedOtpks, this`cachedPqPrekeys
      ensures Ready() && Sound() && pendingSends == old(pendingSends) - {peer}
      ensures forall q :: InHand(q) == old(InHand(q))
      ensures forall q :: EkFor(q) == old(EkFor(q))
      ensures Settled(me, spk, peer, old(KeysWith(peer, prekey)), d, old(DeskFor(peer)), old(Owed(peer)), old(net), DeskFor(peer), net)
      ensures OthersAs(peer, old(sessions), old(persisted))
      ensures cachedOtpks == if old(Owed(peer)) != [] && old(Session(peer)).None? then old(cachedOtpks) - {peer} else old(cachedOtpks)
    {
      hide Total, TablesSound, Settled;
      if peer in pendingSends {
        var texts := pendingSends[peer];
        pendingSends := pendingSends - {peer};
        SendHeld(peer, prekey, texts, d);
        HandedOver(me, spk, peer, old(KeysWith(peer, prekey)), d, old(DeskFor(peer)), texts, drops, old(net), outbox, nextRow,
                   old(pendingSends), DeskFor(peer), net);
      } else {
        NothingSettled(me, spk, peer, KeysWith(peer, prekey), d, DeskFor(peer), net);
      }
    }

    method ReceiveHeld(peer: Peer, prekey: Pub, payloads: seq<Payload>, draw: nat -> PrivId)
      requires Ready()
      modifies this`sessions, this`persisted, this`otpks, this`inbox
      ensures Ready()
      ensures DeskFor(peer) == TakenAll(Self(), peer, prekey, old(DeskFor(peer)), payloads, draw)
      ensures OthersAs(peer, old(sessions), old(persisted))
    {
      hide TakenAll, Taken;
      NothingTaken(Self(), peer, prekey, DeskFor(peer), draw);
      assert payloads[..0] == [] && payloads[..|payloads|] == payloads;
      for i := 0 to |payloads|
        invariant Ready() && OthersAs(peer, old(sessions), old(persisted))
        invariant DeskFor(peer) == TakenAll(Self(), peer, prekey, old(DeskFor(peer)), payloads[..i], draw)
      {
        assert payloads[..i + 1] == payloads[..i] + [payloads[i]];
        TakenLast(Self(), peer, prekey, old(DeskFor(peer)), payloads[..i], payloads[i], draw);
        ReceivePending(peer, prekey, payloads[i], draw(i));
      }
    }

    method ReceivePending(peer: Peer, prekey: Pub, payload: Payload, drawn: PrivId)
      requires Ready()
      modifies this`sessions, this`persisted, this`otpks, this`inbox
      ensures Ready()
      ensures DeskFor(peer) == Taken(Self(), peer, prekey, old(DeskFor(peer)), payload, drawn)
      ensures OthersAs(peer, old(sessions), old(persisted))
    {
      hide Decrypted, ResponderSecret, Answered, Signing.RatchetAd;
      var restored := RestoreSession(peer);
      if restored {
        var ok := DecryptAndStore(peer, payload, drawn);
      } else if payload.eph.Some? {
        var ok := BootstrapResponderAndDecrypt(peer, payload.eph.value, prekey, payload, drawn);
      }
    }

    method SendHeld(peer: Peer, prekey: Pub, texts: seq<bytes>, d: Draws)
      requires Ready()
      modifies this`sessions, this`persisted, this`net, this`cachedOtpks, this`cachedPqPrekeys
      ensures Ready()
      ensures forall q :: EkFor(q) == old(EkFor(q))
      ensures Settled(me, spk, peer, old(KeysWith(peer, prekey)), d, old(DeskFor(peer)), texts, old(net), DeskFor(peer), net)
      ensures OthersAs(peer, old(sessions), old(persisted))
      ensures cachedOtpks == if texts != [] && old(Session(peer)).None? then old(cachedOtpks) - {peer} else old(cachedOtpks)
    {
      hide SendsOne, Settled;
      ghost var keys, mid := KeysWith(peer, prekey), DeskFor(peer);
      NothingSettled(me, spk, peer, keys, d, mid, net);
      assert texts[..0] == [] && texts[..|texts|] == texts;
      for i := 0 to |texts|
        invariant Ready()
        invariant forall q :: EkFor(q) == old(EkFor(q))
        invariant Settled(me, spk, peer, old(KeysWith(peer, prekey)), d, old(DeskFor(peer)), texts[..i], old(net), DeskFor(peer), net)
        invariant OthersAs(peer, old(sessions), old(persisted))
        invariant if i == 0 then sessions == old(sessions) && persisted == old(persisted) else peer in sessions
        invariant cachedOtpks == if i > 0 && old(Session(peer)).None? then old(cachedOtpks) - {peer} else old(cachedOtpks)
      {
        OneMoreSettled(me, spk, peer, keys, KeysWith(peer, prekey), d, mid, texts[..i], old(net), DeskFor(peer), net, texts[i]);
        var payload := SendOne(peer, prekey, texts[i], d);
        assert texts[..i + 1] == texts[..i] + [texts[i]];
      }
    }

    method SendOne(peer: Peer, prekey: Pub, text: bytes, d: Draws) returns (payload: Payload)
      requires Ready()
      modifies this`sessions, this`persisted, this`net, this`cachedOtpks, this`cachedPqPrekeys
      ensures Ready()
      ensures net == old(net) + [Packet(peer, payload)] && peer in sessions
      ensures sessions == old(sessions)[peer := sessions[peer]] && persisted == old(persisted)[peer := sessions[peer]]
      ensures (sessions[peer], payload) == SendsOne(me, spk, peer, Some(old(KeysWith(peer, prekey))), d, old(Session(peer)), text)
      ensures cachedOtpks == if old(Session(peer)).None? then old(cachedOtpks) - {peer} else old(cachedOtpks)
      ensures forall q :: EkFor(q) == old(EkFor(q))
    {
      hide SendsOne;
      var restored := RestoreSession(peer);
      if restored {
        payload := SendUnderSession(peer, text, Some(old(KeysWith(peer, prekey))), d);
      } else {
        payload := BootstrapInitiatorAndSend(peer, text, prekey, d);
      }
    }
  }
}
