// The one-time-prekey table and the node operations on it. The object carries the history of what was
// served and which ids completed a bootstrap; `Valid` holds after every sequence of calls.
module OtpkPool {
  import opened Wrappers
  import opened Words
  import opened Symbolic
  import opened RatchetSpec
  import opened X3dh
  import opened Handshake

  const OTPK_POOL_TARGET := 100

  /** A row of `my_otpks`: fresh, served, or spent. */
  datatype Row = Row(priv: PrivId, pub: Pub, served: bool, consumed: bool)

  function Fresh(rows: map<int, Row>): set<int> {
    set id | id in rows && !rows[id].served
  }

  /** The private halves that still load. */
  function Loadable(rows: map<int, Row>): map<int, PrivId> {
    map id | id in rows && !rows[id].consumed :: rows[id].priv
  }

  /** What a first message that names `id` leads to: a session, when it derives and opens. */
  function Bootstrapped(rows: map<int, Row>, spk: PrivId, dk: nat, initiator: Pub, hello: Hello, msg: RatchetMessage,
                        ad: bytes, drawn: PrivId): Option<State> {
    match ResponderSecret(spk, dk, Loadable(rows), initiator, hello)
    case Failure(_) => None
    case Success(sk) =>
      var (st, r) := Decrypted(NewResponder(sk, spk), drawn, msg, ad);
      if r.Success? then Some(st) else None
  }

  lemma {:induction false} HasLeast(s: set<int>) returns (least: int)
    requires s != {}
    ensures least in s && forall x | x in s :: least <= x
  {
    var x := Element(s);
    var rest := s - {x};
    if rest == {} {
      assert s == {x} + rest;
      least := x;
    } else {
      var m := HasLeast(rest);
      assert s == {x} + rest;
      least := if x < m then x else m;
    }
  }

  // The invariant, clause by clause, on the table and the history.

  ghost predicate RowsSound(rows: map<int, Row>, nextId: int) {
    forall id | id in rows :: id < nextId && rows[id].pub == Pub(rows[id].priv) && !rows[id].consumed
  }

  ghost predicate Ascending(ids: seq<int>) {
    forall i, j | 0 <= i < j < |ids| :: ids[i] < ids[j]
  }

  lemma AscendingAppends(ids: seq<int>, id: int)
    requires Ascending(ids) && forall h | h in ids :: h < id
    ensures Ascending(ids + [id])
  {
    forall i | 0 <= i < |ids| ensures ids[i] < id {
      assert ids[i] in ids;
    }
  }

  /** Every fresh key is still ahead of every id handed out. */
  ghost predicate FreshAhead(rows: map<int, Row>, handedOut: seq<int>, nextId: int) {
    && (forall id, h | id in Fresh(rows) && h in handedOut :: h < id)
    && (forall h | h in handedOut :: h < nextId)
  }

  /** A served id is either spent or still has the private half of what was served. */
  ghost predicate ServedKept(rows: map<int, Row>, publicServed: map<int, Pub>, completed: seq<int>) {
    forall id | id in publicServed :: id in completed || (id in rows && rows[id].pub == publicServed[id])
  }

  /** No id completes two bootstraps. */
  ghost predicate CompletedOnce(rows: map<int, Row>, completed: seq<int>, nextId: int) {
    && (forall i, j | 0 <= i < j < |completed| :: completed[i] != completed[j])
    && (forall id | id in completed :: id !in rows && id < nextId)
  }

  /** No private half is in two rows. */
  ghost predicate Distinct(rows: map<int, Row>) {
    forall i, j | i in rows && j in rows && i != j :: rows[i].priv != rows[j].priv
  }

  /** The generator draws each key once, and none that is already in the table. */
  ghost predicate DrawsFresh(rows: map<int, Row>, draw: nat -> PrivId) {
    (forall i: nat, j: nat | i != j :: draw(i) != draw(j)) && forall i: nat, id | id in rows :: draw(i) != rows[id].priv
  }

  /** The table with `count` new rows, from id `from` on. */
  ghost predicate ToppedUp(before: map<int, Row>, after: map<int, Row>, from: int, count: nat, draw: nat -> PrivId) {
    && (forall id :: id in after <==> id in before || from <= id < from + count)
    && (forall id | id in before :: after[id] == before[id])
    && (forall id | from <= id < from + count :: id !in before && after[id] == Row(draw(id - from), Pub(draw(id - from)), false, false))
  }

  lemma StaysDistinct(before: map<int, Row>, after: map<int, Row>, from: int, count: nat, draw: nat -> PrivId)
    requires Distinct(before) && DrawsFresh(before, draw) && ToppedUp(before, after, from, count, draw)
    ensures Distinct(after)
  {
    forall i, j | i in after && j in after && i != j ensures after[i].priv != after[j].priv {
      assert i in before || after[i].priv == draw(i - from);
      assert j in before || after[j].priv == draw(j - from);
    }
  }

  class OtpkPool {
    var rows: map<int, Row>
    /** AUTOINCREMENT: ids are never reused. */
    var nextId: int

    ghost var handedOut: seq<int>
    ghost var publicServed: map<int, Pub>
    ghost var completed: seq<int>

    ghost predicate Valid()
      reads this
    {
      && RowsSound(rows, nextId)
      && Ascending(handedOut)
      && FreshAhead(rows, handedOut, nextId)
      && (forall id | id in handedOut :: id in publicServed)
      && ServedKept(rows, publicServed, completed)
      && CompletedOnce(rows, completed, nextId)
    }

    constructor ()
      ensures Valid() && rows == map[] && handedOut == [] && completed == []
    {
      rows, nextId, handedOut, publicServed, completed := map[], 1, [], map[], [];
    }

    method AddMyOtpk(priv: PrivId) returns (id: int)
      requires Valid()
      modifies this`rows, this`nextId
      ensures Valid() && id == old(nextId) && nextId == id + 1
      ensures rows == old(rows)[id := Row(priv, Pub(priv), false, false)] && id !in old(rows)
      ensures |Fresh(rows)| == |Fresh(old(rows))| + 1
    {
      id := nextId;
      rows := rows[id := Row(priv, Pub(priv), false, false)];
      nextId := nextId + 1;
      assert Fresh(rows) == Fresh(old(rows)) + {id};
    }

    method UnusedOtpkCount() returns (n: nat)
      ensures n == |Fresh(rows)|
    {
      n := |Fresh(rows)|;
    }

    /** Serves the oldest fresh key: its id is above every id served before. */
    method PopUnusedOtpk() returns (popped: Option<(int, Pub)>)
      requires Valid()
      modifies this`rows, this`handedOut, this`publicServed
      ensures Valid()
      ensures match popped
              case None => Fresh(old(rows)) == {} && rows == old(rows) && handedOut == old(handedOut) && publicServed == old(publicServed)
              case Some((id, pub)) =>
                && id in Fresh(old(rows)) && (forall x | x in Fresh(old(rows)) :: id <= x) && pub == old(rows)[id].pub
                && rows == old(rows)[id := old(rows)[id].(served := true)]
                && handedOut == old(handedOut) + [id] && (forall h | h in old(handedOut) :: h < id)
                && publicServed == old(publicServed)[id := pub]
    {
      var unserved := Fresh(rows);
      if unserved == {} {
        return None;
      }
      ghost var least := HasLeast(unserved);
      var id :| id in unserved && forall x | x in unserved :: id <= x;
      popped := Some((id, rows[id].pub));
      rows := rows[id := rows[id].(served := true)];
      assert Fresh(rows) == unserved - {id};
      AscendingAppends(handedOut, id);
      handedOut := handedOut + [id];
      publicServed := publicServed[id := rows[id].pub];
    }

    /** A served id that has not been spent loads the private half of exactly the public half served. */
    method LoadOtpkPrivate(id: int) returns (priv: Option<PrivId>)
      requires Valid()
      ensures priv == if id in rows && !rows[id].consumed then Some(rows[id].priv) else None
      ensures id in publicServed && id !in completed ==> priv.Some? && Pub(priv.value) == publicServed[id]
      ensures id in completed ==> priv == None
    {
      priv := if id in rows && !rows[id].consumed then Some(rows[id].priv) else None;
    }

    /** Brings the number of fresh keys up to the target, by exactly the missing number of new rows; `draw`
        gives the keys the generator draws. */
    method ReplenishOtpkPool(draw: nat -> PrivId)
      requires Valid()
      modifies this`rows, this`nextId
      ensures Valid() && |Fresh(rows)| == if |Fresh(old(rows))| < OTPK_POOL_TARGET then OTPK_POOL_TARGET else |Fresh(old(rows))|
      ensures nextId - old(nextId) == |Fresh(rows)| - |Fresh(old(rows))|
      ensures ToppedUp(old(rows), rows, old(nextId), nextId - old(nextId), draw)
      ensures Distinct(old(rows)) && DrawsFresh(old(rows), draw) ==> Distinct(rows)
    {
      var unused := UnusedOtpkCount();
      if unused >= OTPK_POOL_TARGET {
        return;
      }
      var needed := OTPK_POOL_TARGET - unused;
      for i := 0 to needed
        invariant Valid() && |Fresh(rows)| == unused + i && nextId == old(nextId) + i
        invariant ToppedUp(old(rows), rows, old(nextId), i, draw)
      {
        var id := AddMyOtpk(draw(i));
      }
      if Distinct(old(rows)) && DrawsFresh(old(rows), draw) {
        StaysDistinct(old(rows), rows, old(nextId), needed, draw);
      }
    }

    /** Pops one bundle for a prekey response and tops the pool up. */
    method PopOneOtpkBundle(draw: nat -> PrivId) returns (popped: Option<(int, Pub)>)
      requires Valid()
      modifies this`rows, this`nextId, this`handedOut, this`publicServed
      ensures Valid() && |Fresh(rows)| >= OTPK_POOL_TARGET
      ensures popped.None? <==> Fresh(old(rows)) == {}
      ensures match popped
              case None => handedOut == old(handedOut) && publicServed == old(publicServed)
              case Some((id, pub)) =>
                && id in Fresh(old(rows)) && (forall x | x in Fresh(old(rows)) :: id <= x) && pub == old(rows)[id].pub
                && handedOut == old(handedOut) + [id] && publicServed == old(publicServed)[id := pub]
      ensures var served := if popped.Some? then old(rows)[popped.value.0 := old(rows)[popped.value.0].(served := true)] else old(rows);
              nextId >= old(nextId) && ToppedUp(served, rows, old(nextId), nextId - old(nextId), draw)
      ensures Distinct(old(rows)) && DrawsFresh(old(rows), draw) ==> Distinct(rows)
    {
      popped := PopUnusedOtpk();
      ReplenishOtpkPool(draw);
    }

    /** A responder bootstrap whose first message names one-time prekey `id`. Success gives the session and
        retires the id; failure changes nothing, so that each id completes at most one. */
    method Bootstrap(spk: PrivId, dk: nat, id: int, eph: Pub, kemCt: Option<EncodedCt>, initiator: Pub,
                     msg: RatchetMessage,
                     ad: bytes, drawn: PrivId) returns (session: Option<State>)
      requires Valid()
      modifies this`rows, this`completed
      ensures Valid()
      ensures session == Bootstrapped(old(rows), spk, dk, initiator, Hello(eph, Some(id), kemCt), msg, ad, drawn)
      ensures session.Some? ==> id !in old(completed) && completed == old(completed) + [id] && rows == old(rows) - {id}
      ensures session.None? ==> rows == old(rows) && completed == old(completed)
    {
      hide Decrypted;
      var pq := if kemCt.Some? then PqDecapsulate(dk, kemCt.value) else None;
      if kemCt.Some? && pq.None? {
        return None;
      }
      var priv := LoadOtpkPrivate(id);
      if priv.None? {
        return None;
      }
      var sk := if pq.Some? then ResponderDeriveWithOtpkHybrid(spk, priv.value, eph, initiator, pq.value)
                else ResponderDeriveWithOtpk(spk, priv.value, eph, initiator);
      var (st, r) := Decrypted(NewResponder(sk, spk), drawn, msg, ad);
      if r.Failure? {
        return None;
      }
      MarkOtpkConsumed(id);
      DeleteOtpk(id);
      assert Fresh(rows) <= Fresh(old(rows));
      completed := completed + [id];
      session := Some(st);
    }

    method MarkOtpkConsumed(id: int)
      modifies this`rows
      ensures rows == if id in old(rows) then old(rows)[id := old(rows)[id].(consumed := true)] else old(rows)
    {
      if id in rows {
        rows := rows[id := rows[id].(consumed := true)];
      }
    }

    method DeleteOtpk(id: int)
      modifies this`rows
      ensures rows == old(rows) - {id}
    {
      rows := rows - {id};
    }
  }

  /** A bundle that was served and has not been used completes the bootstrap of whoever starts a session with
      it, in the classical and in the hybrid variant; after that the same first message leads nowhere. */
  lemma ServedBundleCompletes(pool: OtpkPool, me: PrivId, spk: PrivId, dk: nat, id: int, ek: Option<EncodedEk>,
                        d: Draws,
                              plaintext: bytes, ad: bytes, drawn: PrivId)
    requires pool.Valid() && id in pool.publicServed && id !in pool.completed
    requires (ek.Some? ==> ek.value.ek == dk) && d.ratchet != spk && drawn !in {d.ratchet, spk}
    ensures var (hello, session) := BuildHello(me, Pub(spk), Some(OtpkBundle(id, pool.publicServed[id])), ek, d);
            var sent := Encrypted(session, plaintext, ad).1;
            && sent.Success? && hello.otpkId == Some(id)
            && Bootstrapped(pool.rows, spk, dk, Pub(me), hello, sent.value, ad, drawn).Some?
            && Bootstrapped(pool.rows - {id}, spk, dk, Pub(me), hello, sent.value, ad, drawn).None?
  {
    var otpk := Some(OtpkBundle(id, pool.publicServed[id]));
    assert Published(spk, dk, Loadable(pool.rows), otpk, ek);
    FirstMessageOpens(me, spk, dk, Loadable(pool.rows), otpk, ek, d, plaintext, ad, drawn);
    hide Encrypted, Decrypted, NewInitiator;
    assert id !in Loadable(pool.rows - {id});
  }

  /** With the pool's keys distinct, and whatever hello arrives in place of the one sent: the first message
      leads to a session if and only if it is the hello that was sent. */
  lemma PoolBindsHello(pool: OtpkPool, me: PrivId, spk: PrivId, dk: nat, id: int, ek: Option<EncodedEk>, d: Draws,
                       arrived: Hello, plaintext: bytes, ad: bytes, drawn: PrivId)
    requires pool.Valid() && Distinct(pool.rows) && id in pool.publicServed && id !in pool.completed
    requires (ek.Some? ==> ek.value.ek == dk)
    ensures var (hello, session) := BuildHello(me, Pub(spk), Some(OtpkBundle(id, pool.publicServed[id])), ek, d);
            var sent := Encrypted(session, plaintext, ad).1;
            && sent.Success?
            && (Bootstrapped(pool.rows, spk, dk, Pub(me), arrived, sent.value, ad, drawn).Some? <==> arrived == hello)
  {
    var otpk := Some(OtpkBundle(id, pool.publicServed[id]));
    assert Published(spk, dk, Loadable(pool.rows), otpk, ek);
    HelloBound(me, spk, dk, Loadable(pool.rows), otpk, ek, d, arrived, plaintext, ad, drawn);
    var sent := Encrypted(BuildHello(me, Pub(spk), otpk, ek, d).1, plaintext, ad).1.value;
    hide Encrypted, NewInitiator, BuildHello, ResponderSecret;
    OpensToWhatWasSealed(pool.rows, spk, dk, Pub(me), arrived, sent, ad, drawn, plaintext);
  }

  lemma OpensToWhatWasSealed(rows: map<int, Row>, spk: PrivId, dk: nat, initiator: Pub, hello: Hello, msg: RatchetMessage,
                             ad: bytes, drawn: PrivId, plaintext: bytes)
    requires msg.ciphertext.Sealed? && msg.ciphertext.plaintext == plaintext
    ensures Bootstrapped(rows, spk, dk, initiator, hello, msg, ad, drawn).Some? <==>
              var sk := ResponderSecret(spk, dk, Loadable(rows), initiator, hello);
              sk.Success? && Decrypted(NewResponder(sk.value, spk), drawn, msg, ad).1 == Success(plaintext)
  {
  }
}
