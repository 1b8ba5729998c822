// After a copy of an older chain has been taken in. The two sides go on, but apart: a DH output that only
// one of them ever computes lies in everything that side derives from then on. So nothing sent afterwards
// opens, in any continuation, except exactly what the copy itself made the receiver cache ahead of time.
module Aftermath {
  import opened Wrappers
  import opened Words
  import opened Symbolic
  import opened RatchetSpec
  import opened Delivery
  import opened Agreement
  import opened Duplicates
  import opened Losses

  // ----- the DH outputs a key comes from -----

  function Links(k: Key): set<DhOut> {
    match k
    case Root(rk, dh) => Links(rk) + {dh}
    case Chain(rk, dh) => Links(rk) + {dh}
    case Next(ck) => Links(ck)
    case Message(ck) => Links(ck)
    case _ => {}
  }

  predicate Has(d: DhOut, x: PrivId) {
    d.lo == x || d.hi == x
  }

  lemma {:induction false} AdvanceLinks(ck: Key, steps: nat)
    ensures Links(Advance(ck, steps)) == Links(ck)
  {
    if steps > 0 {
      AdvanceLinks(ck, steps - 1);
    }
  }

  // ----- what receiving does to the links, for any message -----

  ghost predicate Within(st: State, links: set<DhOut>) {
    && Links(st.rk) <= links
    && (st.cks.Some? ==> Links(st.cks.value) <= links)
    && (st.ckr.Some? ==> Links(st.ckr.value) <= links)
    && (forall e | e in st.skipped :: Links(e.mk) <= links)
  }

  lemma RunLinks(dh: Pub, ck: Key, nr: nat, count: nat)
    requires nr + count <= U32_LIMIT
    ensures forall e | e in SkippedRun(dh, ck, nr, count) :: Links(e.mk) == Links(ck)
  {
    var run := SkippedRun(dh, ck, nr, count);
    forall e | e in run ensures Links(e.mk) == Links(ck) {
      var i :| 0 <= i < |run| && run[i] == e;
      AdvanceLinks(ck, i);
    }
  }

  lemma SkippedWithin(st: State, until: u32, links: set<DhOut>)
    requires Within(st, links)
    ensures var s := Skipped(st, until); s.Success? ==> Within(s.value, links) && s.value == st.(ckr := s.value.ckr, nr := s.value.nr, skipped := s.value.skipped)
  {
    if st.ckr.Some? && st.dhr.Some? {
      var count := SaturatingSub(until, st.nr);
      AdvanceLinks(st.ckr.value, count);
      RunLinks(st.dhr.value, st.ckr.value, st.nr, count);
    }
  }

  lemma OpenedWithin(st: State, msg: RatchetMessage, ad: bytes, links: set<DhOut>)
    requires Within(st, links)
    ensures var (after, r) := Opened(st, msg, ad);
            && Within(after, links) && after == st.(ckr := after.ckr, nr := after.nr, skipped := after.skipped)
            && (r.Success? ==> exists mk :: SealedUnder(msg, mk) && Links(mk) <= links)
  {
    SkippedWithin(st, msg.header.n, links);
    var s := Skipped(st, msg.header.n);
    if s.Success? && s.value.ckr.Some? {
      assert Links(Message(s.value.ckr.value)) == Links(s.value.ckr.value) == Links(Next(s.value.ckr.value));
    }
  }

  function StepLinks(st: State, incoming: Pub, drawn: PrivId): set<DhOut> {
    {DiffieHellman(st.dhs, incoming), DiffieHellman(drawn, incoming)}
  }

  lemma SteppedWithin(st: State, incoming: Pub, drawn: PrivId, links: set<DhOut>)
    requires Within(st, links)
    ensures Within(Stepped(st, incoming, drawn), links + StepLinks(st, incoming, drawn))
  {
    var dhIn := DiffieHellman(st.dhs, incoming);
    assert Links(Root(st.rk, dhIn)) == Links(Chain(st.rk, dhIn)) == Links(st.rk) + {dhIn};
  }

  /** Without a DH step no new link appears; with one, the two it computes. */
  lemma ReceivedWithin(st: State, drawn: PrivId, msg: RatchetMessage, ad: bytes, links: set<DhOut>)
    requires Within(st, links) && drawn != st.dhs
    ensures var (after, r) := Decrypted(st, drawn, msg, ad);
            var more := if after.dhs == st.dhs then links else links + StepLinks(st, msg.header.dh, drawn);
            && Within(after, more)
            && (if after.dhs == st.dhs then after.dhr == st.dhr else after.dhs == drawn && after.dhr == Some(msg.header.dh))
            && (r.Success? ==> exists mk :: SealedUnder(msg, mk) && Links(mk) <= more)
  {
    var (tried, hit) := TriedSkipped(st, msg, ad);
    if hit.Some? {
      var e := st.skipped[FirstMatch(st.skipped, msg.header)];
      assert SealedUnder(msg, e.mk);
    } else {
      assert Within(tried, links);
      OpenedWithin(tried, msg, ad, links);
      SkippedWithin(tried, msg.header.pn, links);
      var s := Skipped(tried, msg.header.pn);
      if s.Success? {
        var stepped := Stepped(s.value, msg.header.dh, drawn);
        SteppedWithin(s.value, msg.header.dh, drawn, links);
        OpenedWithin(stepped, msg, ad, links + StepLinks(st, msg.header.dh, drawn));
      }
    }
  }

  // ----- honest runs: which links there are -----

  /** Links between a peer's present key and others: only with the key it follows and the other's present key. */
  ghost predicate Bound(q: Side, p: Side, links: set<DhOut>) {
    forall d | d in links && Has(d, p.st.dhs) ::
      (p.st.dhr.Some? && d == DiffieHellman(p.st.dhs, p.st.dhr.value)) || d == DiffieHellman(p.st.dhs, Pub(q.st.dhs))
  }

  ghost predicate LogWithin(log: seq<Sent>, links: set<DhOut>) {
    forall m | m in log :: m.msg.ciphertext.Sealed? && Links(KeyOf(m)) <= links
  }

  ghost predicate Known(links: set<DhOut>, used: set<PrivId>) {
    forall d | d in links :: d.lo in used && d.hi in used
  }

  ghost predicate Knotted(q: Side, p: Side, used: set<PrivId>, links: set<DhOut>) {
    && Within(q.st, links) && Within(p.st, links) && LogWithin(q.log, links) && LogWithin(p.log, links)
    && Known(links, used) && Bound(q, p, links) && Bound(p, q, links)
    && q.st.dhs in used && p.st.dhs in used && q.st.dhs != p.st.dhs
  }

  lemma SendStaysKnotted(q: Side, p: Side, used: set<PrivId>, links: set<DhOut>, plaintext: bytes, ad: bytes)
    requires Knotted(q, p, used, links) && q.st.cks.Some? && q.st.ns + 1 < U32_LIMIT
    ensures Knotted(SentOn(q, plaintext, ad), p, used, links)
  {
    var q' := SentOn(q, plaintext, ad);
    SentOnAppends(q, plaintext, ad);
    assert Links(Next(q.st.cks.value)) == Links(q.st.cks.value) == Links(KeyOf(q'.log[|q.log|]));
  }

  /** A delivery either leaves the receiver's key alone, or is of the sender's present key. */
  lemma DeliveryShape(q: Side, p: Side, used: set<PrivId>, k: nat, drawn: PrivId)
    requires Genuine(q, used) && Genuine(p, used) && (Leads(q, p) || Leads(p, q))
    requires k < |q.log| && k !in p.received && drawn !in used
    ensures var p' := Received(q, p, k, drawn);
            p'.st.dhs != p.st.dhs ==> q.log[k].msg.header.dh == Pub(q.st.dhs) && q.st.dhr == Some(Pub(p.st.dhs))
  {
    hide Decrypted, Outrun, Caught, Follows, Missing, Undelivered;
    var start := |q.log| - q.st.ns;
    if Leads(p, q) {
      DeliversSynced(q, used, p, k, drawn);
    } else if k < start {
      DeliversLate(q, used, p, k, drawn);
    } else {
      var base := Chain(p.st.rk, DiffieHellman(p.st.dhs, Pub(q.st.dhs)));
      assert Carries(q.log[k], Advance(base, k - start), Pub(q.st.dhs), k - start);
    }
  }

  lemma StepStaysBound(q: Side, p: Side, p': Side, used: set<PrivId>, links: set<DhOut>, drawn: PrivId)
    requires Known(links, used) && Bound(q, p, links) && Bound(p, q, links) && drawn !in used
    requires q.st.dhs in used && p.st.dhs in used && q.st.dhs != p.st.dhs && q.st.dhr == Some(Pub(p.st.dhs))
    requires p'.st.dhs == drawn && p'.st.dhr == Some(Pub(q.st.dhs))
    ensures var more := links + StepLinks(p.st, Pub(q.st.dhs), drawn);
            Known(more, used + {drawn}) && Bound(q, p', more) && Bound(p', q, more)
  {
    DiffieHellmanAgrees(p.st.dhs, q.st.dhs, q.st.dhs, p.st.dhs);
    DiffieHellmanAgrees(drawn, q.st.dhs, q.st.dhs, drawn);
  }

  lemma DeliverStaysKnotted(q: Side, p: Side, used: set<PrivId>, links: set<DhOut>, k: nat,
                        drawn: PrivId) returns (more: set<DhOut>)
    requires Genuine(q, used) && Genuine(p, used) && (Leads(q, p) || Leads(p, q)) && Knotted(q, p, used, links)
    requires k < |q.log| && k !in p.received && drawn !in used
    ensures Knotted(q, Received(q, p, k, drawn), used + {drawn}, more)
  {
    DeliveryShape(q, p, used, k, drawn);
    ReceivedWithin(p.st, drawn, q.log[k].msg, q.log[k].ad, links);
    hide Decrypted, Leads, Genuine, Within;
    var p' := Received(q, p, k, drawn);
    if p'.st.dhs == p.st.dhs {
      more := links;
    } else {
      more := links + StepLinks(p.st, Pub(q.st.dhs), drawn);
      StepStaysBound(q, p, p', used, links, drawn);
      WithinGrows(q.st, links, more);
    }
  }

  lemma WithinGrows(st: State, links: set<DhOut>, more: set<DhOut>)
    requires Within(st, links) && links <= more
    ensures Within(st, more)
  {
  }

  lemma StepStaysKnotted(run: Run, e: Event, links: set<DhOut>) returns (more: set<DhOut>)
    requires Paired(run) && Enabled(run, e) && Knotted(run.alice, run.bob, run.used, links)
    ensures var after := After(run, e); Knotted(after.alice, after.bob, after.used, more)
  {
    match e
    case Send(who, plaintext, ad) =>
      var me := run.Local(who);
      assert run.used + {} == run.used && me.log + [] == me.log;
      more := links;
      if me.st.cks.Some? {
        KnotsTurn(run.alice, run.bob, run.used, links);
        SendStaysKnotted(me, run.Remote(who), run.used, links, plaintext, ad);
        KnotsTurn(SentOn(me, plaintext, ad), run.Remote(who), run.used, links);
      } else {
        assert After(run, e) == run;
      }
    case Deliver(who, index, drawn) =>
      KnotsTurn(run.alice, run.bob, run.used, links);
      more := DeliverStaysKnotted(run.Remote(who), run.Local(who), run.used, links, index, drawn);
      KnotsTurn(run.Remote(who), Received(run.Remote(who), run.Local(who), index, drawn), run.used + {drawn}, more);
  }

  lemma KnotsTurn(q: Side, p: Side, used: set<PrivId>, links: set<DhOut>)
    requires Knotted(q, p, used, links)
    ensures Knotted(p, q, used, links)
  {
  }

  lemma {:induction false} RunStaysKnotted(run: Run, events: seq<Event>, links: set<DhOut>) returns (more: set<DhOut>)
    requires Paired(run) && Possible(run, events) && Knotted(run.alice, run.bob, run.used, links)
    ensures var end := AfterAll(run, events); Knotted(end.alice, end.bob, end.used, more)
    decreases |events|
  {
    hide Paired, Knotted, After, Enabled;
    if events == [] {
      more := links;
    } else {
      var next := StepStaysKnotted(run, events[0], links);
      StepStaysPaired(run, events[0]);
      more := RunStaysKnotted(After(run, events[0]), events[1..], next);
    }
  }

  // ----- apart -----

  /** Everything the state derives from now on has `d` in it; of what it has cached, all but the entries
      `early`. */
  ghost predicate Marked(st: State, d: DhOut, early: seq<SkippedKey>) {
    && d in Links(st.rk)
    && (st.cks.Some? ==> d in Links(st.cks.value))
    && (st.ckr.Some? ==> d in Links(st.ckr.value))
    && (forall e | e in st.skipped :: d in Links(e.mk) || e in early)
  }

  /** Nothing the state holds has `d` in it, and it cannot compute `d`. */
  ghost predicate Unmarked(st: State, d: DhOut) {
    && d !in Links(st.rk) && !Has(d, st.dhs)
    && (st.cks.Some? ==> d !in Links(st.cks.value))
    && (st.ckr.Some? ==> d !in Links(st.ckr.value))
    && (forall e | e in st.skipped :: d !in Links(e.mk))
  }

  lemma SkippedStaysMarked(st: State, until: u32, d: DhOut, early: seq<SkippedKey>)
    requires Marked(st, d, early)
    ensures var s := Skipped(st, until); s.Success? ==> Marked(s.value, d, early)
  {
    if st.ckr.Some? && st.dhr.Some? {
      var count := SaturatingSub(until, st.nr);
      AdvanceLinks(st.ckr.value, count);
      RunLinks(st.dhr.value, st.ckr.value, st.nr, count);
    }
  }

  lemma OpenedStaysMarked(st: State, msg: RatchetMessage, ad: bytes, d: DhOut, early: seq<SkippedKey>)
    requires Marked(st, d, early)
    ensures var (after, r) := Opened(st, msg, ad);
            Marked(after, d, early) && (r.Success? ==> exists mk :: SealedUnder(msg, mk) && d in Links(mk))
  {
    SkippedStaysMarked(st, msg.header.n, d, early);
    var s := Skipped(st, msg.header.n);
    if s.Success? && s.value.ckr.Some? {
      assert Links(Message(s.value.ckr.value)) == Links(s.value.ckr.value) == Links(Next(s.value.ckr.value));
    }
  }

  lemma SteppedIsMarked(st: State, incoming: Pub, drawn: PrivId, d: DhOut, early: seq<SkippedKey>)
    requires forall e | e in st.skipped :: d in Links(e.mk) || e in early
    requires d in Links(st.rk) || d == DiffieHellman(st.dhs, incoming)
    ensures Marked(Stepped(st, incoming, drawn), d, early)
  {
    var dhIn := DiffieHellman(st.dhs, incoming);
    assert Links(Root(st.rk, dhIn)) == Links(Chain(st.rk, dhIn)) == Links(st.rk) + {dhIn};
  }

  /** A marked side stays so whatever arrives, and opens only what is marked, or cached early. */
  lemma ReceivingStaysMarked(st: State, drawn: PrivId, msg: RatchetMessage, ad: bytes, d: DhOut, early: seq<SkippedKey>)
    requires Marked(st, d, early)
    ensures var (after, r) := Decrypted(st, drawn, msg, ad);
            && Marked(after, d, early)
            && (r.Success? ==> (exists mk :: SealedUnder(msg, mk) && d in Links(mk)) || exists e :: e in early && Matches(e, msg.header))
  {
    var (tried, hit) := TriedSkipped(st, msg, ad);
    if hit.Some? {
      var e := st.skipped[FirstMatch(st.skipped, msg.header)];
      assert SealedUnder(msg, e.mk) && Matches(e, msg.header);
    } else {
      assert Marked(tried, d, early);
      OpenedStaysMarked(tried, msg, ad, d, early);
      SkippedStaysMarked(tried, msg.header.pn, d, early);
      var s := Skipped(tried, msg.header.pn);
      if s.Success? {
        SteppedIsMarked(s.value, msg.header.dh, drawn, d, early);
        OpenedStaysMarked(Stepped(s.value, msg.header.dh, drawn), msg, ad, d, early);
      }
    }
  }

  /** An unmarked side stays so whatever arrives, and opens nothing marked. */
  lemma ReceivingStaysUnmarked(st: State, drawn: PrivId, msg: RatchetMessage, ad: bytes, d: DhOut)
    requires Unmarked(st, d) && !Has(d, drawn) && drawn != st.dhs
    ensures var (after, r) := Decrypted(st, drawn, msg, ad);
            Unmarked(after, d) && (r.Success? ==> exists mk :: SealedUnder(msg, mk) && d !in Links(mk))
  {
    var links := LinksOf(st);
    ReceivedWithin(st, drawn, msg, ad, links - {d});
    hide Decrypted;
    assert d !in StepLinks(st, msg.header.dh, drawn);
  }

  /** Some set that bounds the links of a state. */
  ghost function LinksOf(st: State): (links: set<DhOut>)
    ensures Within(st, links)
  {
    Links(st.rk) + (if st.cks.Some? then Links(st.cks.value) else {}) + (if st.ckr.Some? then Links(st.ckr.value) else {}) +
    CacheLinks(st.skipped)
  }

  ghost function CacheLinks(cache: seq<SkippedKey>): (links: set<DhOut>)
    ensures forall e | e in cache :: Links(e.mk) <= links
  {
    if cache == [] then {} else Links(cache[0].mk) + CacheLinks(cache[1..])
  }

  // ----- what follows the copy -----

  /** The moment of the copy: the marked link, what the receiver had cached by then, how much each side had
      sent, the sender's key and counter, and the keys drawn. */
  datatype Moment = Moment(d: DhOut, early: seq<SkippedKey>, sentTo: nat, sentBack: nat, dhs: PrivId, ns: u32, used: set<PrivId>)

  /** A header that only a message sent since can carry. */
  predicate Since(h: Header, at: Moment) {
    (h.dh == Pub(at.dhs) && h.n >= at.ns) || h.dh.id !in at.used
  }

  /** `p` has taken in the copy; `q` sent it. */
  ghost predicate Apart(q: Side, p: Side, used: set<PrivId>, at: Moment) {
    && Unmarked(q.st, at.d) && Marked(p.st, at.d, at.early)
    && q.st.dhs in used && p.st.dhs in used && at.used <= used && at.d.lo in used && at.d.hi in used
    && at.sentTo <= |q.log| && at.sentBack <= |p.log|
    && ((q.st.dhs == at.dhs && q.st.ns >= at.ns) || q.st.dhs !in at.used)
    && (forall m | m in q.log :: m.msg.ciphertext.Sealed? && at.d !in Links(KeyOf(m)))
    && (forall k | at.sentTo <= k < |q.log| :: Since(q.log[k].msg.header, at))
    && (forall k | at.sentBack <= k < |p.log| :: p.log[k].msg.ciphertext.Sealed? && at.d in Links(KeyOf(p.log[k])))
  }

  lemma SenderStaysApart(q: Side, p: Side, used: set<PrivId>, at: Moment, plaintext: bytes, ad: bytes)
    requires Apart(q, p, used, at) && q.st.cks.Some? && q.st.ns + 1 < U32_LIMIT
    ensures Apart(SentOn(q, plaintext, ad), p, used, at)
  {
    var q' := SentOn(q, plaintext, ad);
    SentOnAppends(q, plaintext, ad);
    assert Links(Next(q.st.cks.value)) == Links(q.st.cks.value) == Links(KeyOf(q'.log[|q.log|]));
  }

  lemma ReceiverSendsApart(q: Side, p: Side, used: set<PrivId>, at: Moment, plaintext: bytes, ad: bytes)
    requires Apart(q, p, used, at) && p.st.cks.Some? && p.st.ns + 1 < U32_LIMIT
    ensures Apart(q, SentOn(p, plaintext, ad), used, at)
  {
    var p' := SentOn(p, plaintext, ad);
    SentOnAppends(p, plaintext, ad);
    assert Links(Next(p.st.cks.value)) == Links(p.st.cks.value) == Links(KeyOf(p'.log[|p.log|]));
  }

  lemma SealedOnce(m: Sent, mk: Key)
    requires m.msg.ciphertext.Sealed? && SealedUnder(m.msg, mk)
    ensures KeyOf(m) == mk
  {
  }

  /** The receiver of the copy takes in message `k`: it opens only if its header was cached early. */
  lemma ReceiverStaysApart(q: Side, p: Side, used: set<PrivId>, at: Moment, k: nat, drawn: PrivId)
    requires Apart(q, p, used, at) && k < |q.log| && drawn !in used
    ensures Apart(q, Received(q, p, k, drawn), used + {drawn}, at)
    ensures Decrypted(p.st, drawn, q.log[k].msg, q.log[k].ad).1.Success? ==>
              exists e :: e in at.early && Matches(e, q.log[k].msg.header)
  {
    var m := q.log[k];
    assert m in q.log;
    ReceivingStaysMarked(p.st, drawn, m.msg, m.ad, at.d, at.early);
    ReceivedWithin(p.st, drawn, m.msg, m.ad, LinksOf(p.st));
    hide Decrypted, Marked, Unmarked, Within, LinksOf;
    if mk :| SealedUnder(m.msg, mk) && at.d in Links(mk) {
      SealedOnce(m, mk);
    }
  }

  /** The other side takes in message `k`: nothing sent since the copy opens. */
  lemma SenderReceivesApart(q: Side, p: Side, used: set<PrivId>, at: Moment, k: nat, drawn: PrivId)
    requires Apart(q, p, used, at) && k < |p.log| && drawn !in used
    ensures Apart(Received(p, q, k, drawn), p, used + {drawn}, at)
    ensures k >= at.sentBack ==> Decrypted(q.st, drawn, p.log[k].msg, p.log[k].ad).1.Failure?
  {
    var m := p.log[k];
    ReceivingStaysUnmarked(q.st, drawn, m.msg, m.ad, at.d);
    ReceivedKeeps(q.st, drawn, m.msg, m.ad);
    hide Decrypted, Marked, Unmarked;
    forall mk | SealedUnder(m.msg, mk) ensures mk == KeyOf(m) {
      SealedOnce(m, mk);
    }
  }

  /** A receive keeps the sending key and counter, or starts over from the key just drawn. */
  lemma ReceivedKeeps(st: State, drawn: PrivId, msg: RatchetMessage, ad: bytes)
    ensures var after := Decrypted(st, drawn, msg, ad).0; (after.dhs == st.dhs && after.ns == st.ns) || after.dhs == drawn
  {
  }

  ghost predicate ApartRun(run: Run, who: Who, at: Moment) {
    Apart(run.Remote(who), run.Local(who), run.used, at)
  }

  lemma StepStaysApart(run: Run, who: Who, at: Moment, e: Event)
    requires ApartRun(run, who, at) && Enabled(run, e)
    ensures ApartRun(After(run, e), who, at)
  {
    hide Decrypted, Apart;
    match e
    case Send(sender, plaintext, ad) =>
      var me := run.Local(sender);
      assert run.used + {} == run.used && me.log + [] == me.log;
      if me.st.cks.None? {
        assert After(run, e) == run;
      } else if sender == who {
        ReceiverSendsApart(run.Remote(who), run.Local(who), run.used, at, plaintext, ad);
      } else {
        SenderStaysApart(run.Remote(who), run.Local(who), run.used, at, plaintext, ad);
      }
    case Deliver(reader, index, drawn) =>
      if reader == who {
        ReceiverStaysApart(run.Remote(who), run.Local(who), run.used, at, index, drawn);
      } else {
        SenderReceivesApart(run.Remote(who), run.Local(who), run.used, at, index, drawn);
      }
  }

  lemma {:induction false} RunStaysApart(run: Run, who: Who, at: Moment, events: seq<Event>)
    requires ApartRun(run, who, at) && Possible(run, events)
    ensures ApartRun(AfterAll(run, events), who, at)
    decreases |events|
  {
    hide ApartRun, After, Enabled;
    if events != [] {
      StepStaysApart(run, who, at, events[0]);
      RunStaysApart(After(run, events[0]), who, at, events[1..]);
    }
  }

  // ----- the copy marks one side -----

  /** The link the copy makes the receiver compute: between its own key and an old one of the sender. No one
      else ever does. */
  lemma CopyLinkIsNew(q: Side, p: Side, used: set<PrivId>, links: set<DhOut>, k: nat)
    requires Knotted(q, p, used, links) && Genuine(q, used) && (Synced(q, p) || Behind(q, p))
    requires k in p.received && k < |q.log| && p.st.dhr != Some(q.log[k].msg.header.dh) && p.st.dhr.Some?
    ensures var d := DiffieHellman(p.st.dhs, q.log[k].msg.header.dh);
            d !in links && !Has(d, q.st.dhs) && d.lo in used && d.hi in used
  {
    var prior := q.log[k].msg.header.dh;
    assert q.log[k] in q.log;
    CopyIsOld(q, used, p, k);
    DiffieHellmanAgrees(p.st.dhs, prior.id, p.st.dhs, p.st.dhr.value.id);
    DiffieHellmanAgrees(p.st.dhs, prior.id, p.st.dhs, q.st.dhs);
  }

  /** What the copy leaves, when it is not refused at once: the cache as caught up with its header, apart from
      marked entries. */
  lemma CopyMarks(st: State, drawn: PrivId, msg: RatchetMessage, ad: bytes)
    requires FirstMatch(st.skipped, msg.header) == |st.skipped| && st.ckr.Some? && st.dhr.Some? && st.dhr != Some(msg.header.dh)
    requires !RefusedAtOnce(st, msg.header)
    ensures var early := st.skipped + SkippedRun(st.dhr.value, st.ckr.value, st.nr, SaturatingSub(msg.header.pn, st.nr));
            var (after, r) := Decrypted(st, drawn, msg, ad);
            Marked(after, DiffieHellman(st.dhs, msg.header.dh), early) && after.dhs == drawn
  {
    var d := DiffieHellman(st.dhs, msg.header.dh);
    var s := Skipped(st, msg.header.pn).value;
    SteppedIsMarked(s, msg.header.dh, drawn, d, s.skipped);
    OpenedStaysMarked(Stepped(s, msg.header.dh, drawn), msg, ad, d, s.skipped);
    OpenedWithin(Stepped(s, msg.header.dh, drawn), msg, ad, LinksOf(Stepped(s, msg.header.dh, drawn)));
  }

  /** Of the headers sent since, the early cache answers only to those the copy made the receiver skip to. */
  lemma EarlyIsAhead(q: Side, used: set<PrivId>, p: Side, cut: nat, h: Header, pn: u32, at: Moment, e: SkippedKey)
    requires Genuine(q, used) && Caught(q.log, p, cut) && p.st.ckr.Some? && p.st.dhr.Some?
    requires at.used == used && at.dhs == q.st.dhs && at.ns == q.st.ns && Since(h, at)
    requires e in p.st.skipped + SkippedRun(p.st.dhr.value, p.st.ckr.value, p.st.nr, SaturatingSub(pn, p.st.nr)) && Matches(e, h)
    ensures p.st.dhr == Some(h.dh) && p.st.nr <= h.n < pn
  {
    if e in p.st.skipped {
      var i :| 0 <= i < |p.st.skipped| && p.st.skipped[i] == e;
      var j := MissingFrom(q.log, p.received, cut, i);
      NotSince(q, used, j, at);
    } else {
      var run := SkippedRun(p.st.dhr.value, p.st.ckr.value, p.st.nr, SaturatingSub(pn, p.st.nr));
      assert e in run;
      var i :| 0 <= i < |run| && run[i] == e;
    }
  }

  lemma NotSince(q: Side, used: set<PrivId>, j: nat, at: Moment)
    requires Genuine(q, used) && j < |q.log| && at.used == used && at.dhs == q.st.dhs && at.ns == q.st.ns
    ensures !Since(q.log[j].msg.header, at)
  {
    assert q.log[j] in q.log;
  }

  /** Both sides right after the copy. */
  lemma CopySetsApart(q: Side, p: Side, used: set<PrivId>, links: set<DhOut>, k: nat,
                      drawn: PrivId) returns (at: Moment)
    requires Knotted(q, p, used, links) && Genuine(q, used) && (Synced(q, p) || Behind(q, p)) && drawn !in used
    requires k in p.received && k < |q.log| && p.st.dhr != Some(q.log[k].msg.header.dh) && !RefusedAtOnce(p.st, q.log[k].msg.header)
    ensures Apart(q, p.(st := Decrypted(p.st, drawn, q.log[k].msg, q.log[k].ad).0), used + {drawn}, at)
    ensures at.sentTo == |q.log| && at.sentBack == |p.log| && at.dhs == q.st.dhs && at.used == used
    ensures forall e, h | e in at.early && Matches(e, h) && Since(h, at) ::
              p.st.dhr == Some(h.dh) && p.st.nr <= h.n < q.log[k].msg.header.pn
  {
    var m := q.log[k].msg;
    OpenedIsBehind(q, used, p, k);
    var cut := CutOf(q, p);
    OpenedIsNotCached(q, used, p, cut, k);
    CopyLinkIsNew(q, p, used, links, k);
    CopyMarks(p.st, drawn, m, q.log[k].ad);
    var d := DiffieHellman(p.st.dhs, m.header.dh);
    var early := p.st.skipped + SkippedRun(p.st.dhr.value, p.st.ckr.value, p.st.nr, SaturatingSub(m.header.pn, p.st.nr));
    at := Moment(d, early, |q.log|, |p.log|, q.st.dhs, q.st.ns, used);
    hide Decrypted, Synced, Behind, Genuine, Marked;
    forall e, h | e in at.early && Matches(e, h) && Since(h, at)
      ensures p.st.dhr == Some(h.dh) && p.st.nr <= h.n < m.header.pn
    {
      EarlyIsAhead(q, used, p, cut, h, m.header.pn, at, e);
    }
  }

  lemma SpoiledApart(run: Run, links: set<DhOut>, who: Who, index: nat, drawn: PrivId) returns (spoiled: Run,
                     at: Moment)
    requires Paired(run) && Knotted(run.alice, run.bob, run.used, links)
    requires index in run.Local(who).received && index < |run.Remote(who).log| && drawn !in run.used
    requires run.Local(who).st.dhr != Some(run.Remote(who).log[index].msg.header.dh)
    requires !RefusedAtOnce(run.Local(who).st, run.Remote(who).log[index].msg.header)
    ensures spoiled == run.With(who, run.Local(who).(st := Delivered(run, who, index, drawn).0), {drawn})
    ensures ApartRun(spoiled, who, at) && at.dhs == run.Remote(who).st.dhs && at.used == run.used
    ensures at.sentTo == |run.Remote(who).log| && at.sentBack == |run.Local(who).log|
    ensures forall e, h | e in at.early && Matches(e, h) && Since(h, at) ::
              run.Local(who).st.dhr == Some(h.dh) && run.Local(who).st.nr <= h.n < run.Remote(who).log[index].msg.header.pn
  {
    KnotsTurn(run.alice, run.bob, run.used, links);
    at := CopySetsApart(run.Remote(who), run.Local(who), run.used, links, index, drawn);
    hide Decrypted, Apart, Knotted, Paired;
    spoiled := run.With(who, run.Local(who).(st := Delivered(run, who, index, drawn).0), {drawn});
  }

  lemma StartKnotted(sk: Key, a: PrivId, b: PrivId)
    requires a != b && Links(sk) == {}
    ensures var start := Handshaken(sk, a, b); Knotted(start.alice, start.bob, start.used, {DiffieHellman(a, Pub(b))})
  {
    DiffieHellmanAgrees(a, b, b, a);
    var start := Handshaken(sk, a, b);
    assert Links(start.alice.st.rk) == Links(start.alice.st.cks.value) == {DiffieHellman(a, Pub(b))};
  }

  lemma KnottedReach(sk: Key, a: PrivId, b: PrivId, events: seq<Event>) returns (run: Run, links: set<DhOut>)
    requires a != b && Links(sk) == {} && Possible(Handshaken(sk, a, b), events)
    ensures run == AfterAll(Handshaken(sk, a, b), events) && Paired(run) && Knotted(run.alice, run.bob, run.used, links)
  {
    HandshakePairs(sk, a, b);
    var start := Handshaken(sk, a, b);
    RunStaysPaired(start, events);
    StartKnotted(sk, a, b);
    links := RunStaysKnotted(start, events, {DiffieHellman(a, Pub(b))});
    run := AfterAll(start, events);
  }

  // ----- what the copy made the receiver cache ahead -----

  /** The keys for numbers `from..until` of the chain of `dh` that stands at `ck` for number `from`. */
  datatype Stretch = Stretch(dh: Pub, ck: Key, from: nat, until: nat) {
    function KeyAt(n: nat): SkippedKey
      requires from <= n < U32_LIMIT
    {
      SkippedKey(dh, n, Message(Advance(ck, n - from)))
    }
  }

  /** The entry is in the cache, and a lookup finds it. */
  ghost predicate Found(cache: seq<SkippedKey>, e: SkippedKey) {
    exists i :: 0 <= i < |cache| && cache[i] == e && forall j | 0 <= j < i :: cache[j].dhPub != e.dhPub || cache[j].n != e.n
  }

  lemma FoundIsMatched(cache: seq<SkippedKey>, e: SkippedKey, h: Header)
    requires Found(cache, e) && Matches(e, h)
    ensures FirstMatch(cache, h) < |cache| && cache[FirstMatch(cache, h)] == e
  {
    var i :| 0 <= i < |cache| && cache[i] == e && forall j | 0 <= j < i :: cache[j].dhPub != e.dhPub || cache[j].n != e.n;
  }

  lemma FoundStays(cache: seq<SkippedKey>, e: SkippedKey, more: seq<SkippedKey>)
    requires Found(cache, e)
    ensures Found(cache + more, e)
  {
    var i :| 0 <= i < |cache| && cache[i] == e && forall j | 0 <= j < i :: cache[j].dhPub != e.dhPub || cache[j].n != e.n;
    assert (cache + more)[i] == e;
  }

  lemma FoundOutlasts(cache: seq<SkippedKey>, e: SkippedKey, pos: nat)
    requires Found(cache, e) && pos < |cache| && (cache[pos].dhPub != e.dhPub || cache[pos].n != e.n)
    ensures Found(RemoveAt(cache, pos), e)
  {
    var i :| 0 <= i < |cache| && cache[i] == e && forall j | 0 <= j < i :: cache[j].dhPub != e.dhPub || cache[j].n != e.n;
    var left := RemoveAt(cache, pos);
    assert left[if i < pos then i else i - 1] == e;
  }

  /** Whatever arrives, only the entry its own header finds is taken out. */
  lemma ReceivingKeepsFound(st: State, drawn: PrivId, msg: RatchetMessage, ad: bytes, e: SkippedKey)
    requires Found(st.skipped, e) && !Matches(e, msg.header)
    ensures Found(Decrypted(st, drawn, msg, ad).0.skipped, e)
  {
    hide Found, Opened, Skipped, Stepped, AeadOpen;
    var (tried, hit) := TriedSkipped(st, msg, ad);
    var pos := FirstMatch(st.skipped, msg.header);
    if pos < |st.skipped| {
      FoundOutlasts(st.skipped, e, pos);
    }
    var after := Decrypted(st, drawn, msg, ad).0;
    if hit.None? {
      GrowsAtTheEnd(tried, drawn, msg, ad);
      FoundStays(tried.skipped, e, after.skipped[|tried.skipped|..]);
      assert tried.skipped + after.skipped[|tried.skipped|..] == after.skipped;
    }
  }

  /** Past the lookup, keys are only added, and at the end. */
  lemma GrowsAtTheEnd(tried: State, drawn: PrivId, msg: RatchetMessage, ad: bytes)
    ensures tried.skipped <= Opened(tried, msg, ad).0.skipped
    ensures var s := Skipped(tried, msg.header.pn);
            s.Success? ==> tried.skipped <= Opened(Stepped(s.value, msg.header.dh, drawn), msg, ad).0.skipped
  {
    OpenedCaches(tried, msg, ad);
    var s := Skipped(tried, msg.header.pn);
    if s.Success? {
      OpenedCaches(Stepped(s.value, msg.header.dh, drawn), msg, ad);
    }
  }

  ghost predicate OpenedNumber(q: Side, p: Side, dh: Pub, n: nat) {
    exists k :: k in p.received && k < |q.log| && q.log[k].msg.header.dh == dh && q.log[k].msg.header.n == n
  }

  /** What `q` sends on the chain lies on it, each number once; and for each number of the stretch `p` finds
      the key, or has opened the message. */
  ghost predicate Foreseen(q: Side, p: Side, used: set<PrivId>, w: Stretch) {
    && w.dh.id in used && q.st.dhs in used && w.until <= U32_LIMIT
    && (Pub(q.st.dhs) == w.dh ==> q.st.cks.Some? && w.from <= q.st.ns && q.st.cks.value == Advance(w.ck, q.st.ns - w.from))
    && (forall m | m in q.log && m.msg.header.dh == w.dh :: OnStretch(m, q.st, w))
    && (forall j, k | 0 <= j < k < |q.log| :: !Matches(Entry(q.log[j]), q.log[k].msg.header) || q.log[j].msg.header.dh != w.dh)
    && (forall n: nat | w.from <= n < w.until :: Found(p.st.skipped, w.KeyAt(n)) || OpenedNumber(q, p, w.dh, n))
  }

  ghost predicate OnStretch(m: Sent, st: State, w: Stretch) {
    && SealedRight(m) && (Pub(st.dhs) == w.dh ==> m.msg.header.n < st.ns)
    && (w.from <= m.msg.header.n ==> KeyOf(m) == w.KeyAt(m.msg.header.n).mk)
  }

  lemma SendStaysForeseen(q: Side, p: Side, used: set<PrivId>, w: Stretch, plaintext: bytes, ad: bytes)
    requires Foreseen(q, p, used, w) && q.st.cks.Some? && q.st.ns + 1 < U32_LIMIT
    ensures Foreseen(SentOn(q, plaintext, ad), p, used, w)
  {
    var q' := SentOn(q, plaintext, ad);
    SentOnAppends(q, plaintext, ad);
    var next := q'.log[|q.log|];
    forall m | m in q'.log && m.msg.header.dh == w.dh ensures OnStretch(m, q'.st, w) {
      assert m in q.log || m == next;
    }
    forall j | 0 <= j < |q.log| ensures !Matches(Entry(q.log[j]), next.msg.header) || q.log[j].msg.header.dh != w.dh {
      assert q.log[j] in q.log;
    }
    forall n: nat | w.from <= n < w.until && OpenedNumber(q, p, w.dh, n) ensures OpenedNumber(q', p, w.dh, n) {
      var k :| k in p.received && k < |q.log| && q.log[k].msg.header.dh == w.dh && q.log[k].msg.header.n == n;
      assert q'.log[k] == q.log[k];
    }
  }

  /** A message of the stretch that is found is opened. */
  lemma FoundOpens(p: State, m: Sent, w: Stretch, n: nat, drawn: PrivId)
    requires w.from <= n < U32_LIMIT && Found(p.skipped, w.KeyAt(n)) && Matches(w.KeyAt(n), m.msg.header)
    requires SealedRight(m) && KeyOf(m) == w.KeyAt(n).mk
    ensures Decrypted(p, drawn, m.msg, m.ad).1 == Success(m.plaintext)
  {
    FoundIsMatched(p.skipped, w.KeyAt(n), m.msg.header);
  }

  lemma ReadStaysForeseen(q: Side, p: Side, used: set<PrivId>, w: Stretch, k: nat, drawn: PrivId)
    requires Foreseen(q, p, used, w) && k < |q.log|
    ensures Foreseen(q, Received(q, p, k, drawn), used + {drawn}, w)
  {
    var m, p' := q.log[k], Received(q, p, k, drawn);
    assert m in q.log;
    hide Decrypted;
    forall n: nat | w.from <= n < w.until ensures Found(p'.st.skipped, w.KeyAt(n)) || OpenedNumber(q, p', w.dh, n) {
      if Found(p.st.skipped, w.KeyAt(n)) {
        if Matches(w.KeyAt(n), m.msg.header) {
          FoundOpens(p.st, m, w, n, drawn);
        } else {
          ReceivingKeepsFound(p.st, drawn, m.msg, m.ad, w.KeyAt(n));
        }
      } else {
        var i :| i in p.received && i < |q.log| && q.log[i].msg.header.dh == w.dh && q.log[i].msg.header.n == n;
        assert i in p'.received;
      }
    }
  }

  lemma WriterReadsForeseen(q: Side, p: Side, used: set<PrivId>, w: Stretch, k: nat, drawn: PrivId)
    requires Foreseen(q, p, used, w) && k < |p.log| && drawn !in used
    ensures Foreseen(Received(p, q, k, drawn), p, used + {drawn}, w)
  {
    var q' := Received(p, q, k, drawn);
    assert (q'.st.dhs == q.st.dhs && q'.st.ns == q.st.ns && q'.st.cks == q.st.cks) || q'.st.dhs == drawn;
    hide Decrypted;
    forall n: nat | w.from <= n < w.until && OpenedNumber(q, p, w.dh, n) ensures OpenedNumber(q', p, w.dh, n) {
    }
  }

  lemma StepStaysForeseen(run: Run, who: Who, w: Stretch, e: Event)
    requires Foreseen(run.Remote(who), run.Local(who), run.used, w) && Enabled(run, e)
    ensures var after := After(run, e); Foreseen(after.Remote(who), after.Local(who), after.used, w)
  {
    hide Decrypted, Foreseen;
    match e
    case Send(sender, plaintext, ad) =>
      var me := run.Local(sender);
      assert run.used + {} == run.used && me.log + [] == me.log;
      if me.st.cks.None? {
        assert After(run, e) == run;
      } else if sender == who {
        SameReaderForeseen(run.Remote(who), run.Local(who), SentOn(run.Local(who), plaintext, ad), run.used, w);
      } else {
        SendStaysForeseen(run.Remote(who), run.Local(who), run.used, w, plaintext, ad);
      }
    case Deliver(reader, index, drawn) =>
      if reader == who {
        ReadStaysForeseen(run.Remote(who), run.Local(who), run.used, w, index, drawn);
      } else {
        WriterReadsForeseen(run.Remote(who), run.Local(who), run.used, w, index, drawn);
      }
  }

  lemma SameReaderForeseen(q: Side, p: Side, p': Side, used: set<PrivId>, w: Stretch)
    requires Foreseen(q, p, used, w) && p'.st.skipped == p.st.skipped && p'.received == p.received
    ensures Foreseen(q, p', used, w)
  {
    forall n: nat | w.from <= n < w.until && OpenedNumber(q, p, w.dh, n) ensures OpenedNumber(q, p', w.dh, n) {
    }
  }

  lemma {:induction false} RunStaysForeseen(run: Run, who: Who, w: Stretch, events: seq<Event>)
    requires Foreseen(run.Remote(who), run.Local(who), run.used, w) && Possible(run, events)
    ensures var end := AfterAll(run, events); Foreseen(end.Remote(who), end.Local(who), end.used, w)
    decreases |events|
  {
    hide Foreseen, After, Enabled;
    if events != [] {
      StepStaysForeseen(run, who, w, events[0]);
      RunStaysForeseen(After(run, events[0]), who, w, events[1..]);
    }
  }

  lemma NumberOnce(q: Side, p: Side, used: set<PrivId>, w: Stretch, i: nat, k: nat)
    requires Foreseen(q, p, used, w) && i < |q.log| && k < |q.log|
    requires q.log[i].msg.header.dh == w.dh && Matches(Entry(q.log[i]), q.log[k].msg.header)
    ensures i == k
  {
  }

  lemma ForeseenOpens(q: Side, p: Side, used: set<PrivId>, w: Stretch, k: nat, drawn: PrivId)
    requires Foreseen(q, p, used, w) && k < |q.log| && k !in p.received
    requires q.log[k].msg.header.dh == w.dh && w.from <= q.log[k].msg.header.n < w.until
    ensures Decrypted(p.st, drawn, q.log[k].msg, q.log[k].ad).1 == Success(q.log[k].plaintext)
  {
    var m, n := q.log[k], q.log[k].msg.header.n;
    assert m in q.log;
    if OpenedNumber(q, p, w.dh, n) {
      var i :| i in p.received && i < |q.log| && q.log[i].msg.header.dh == w.dh && q.log[i].msg.header.n == n;
      NumberOnce(q, p, used, w, i, k);
    }
    FoundOpens(p.st, m, w, n, drawn);
  }

  /** What a copy leaves at the front of the cache. */
  lemma CopyKeepsEarly(st: State, drawn: PrivId, msg: RatchetMessage, ad: bytes)
    requires FirstMatch(st.skipped, msg.header) == |st.skipped| && st.ckr.Some? && st.dhr.Some? && st.dhr != Some(msg.header.dh)
    requires !RefusedAtOnce(st, msg.header)
    ensures var early := st.skipped + SkippedRun(st.dhr.value, st.ckr.value, st.nr, SaturatingSub(msg.header.pn, st.nr));
            early <= Decrypted(st, drawn, msg, ad).0.skipped
  {
    var s := Skipped(st, msg.header.pn).value;
    OpenedCaches(Stepped(s, msg.header.dh, drawn), msg, ad);
  }

  /** The copy starts it, when the two are on the same chain. */
  lemma CopyForesees(q: Side, p: Side, used: set<PrivId>, k: nat, drawn: PrivId)
    requires Genuine(q, used) && Synced(q, p)
    requires k in p.received && k < |q.log| && p.st.dhr != Some(q.log[k].msg.header.dh) && !RefusedAtOnce(p.st, q.log[k].msg.header)
    ensures p.st.ckr.Some?
    ensures Foreseen(q, p.(st := Decrypted(p.st, drawn, q.log[k].msg, q.log[k].ad).0), used + {drawn},
                     Stretch(Pub(q.st.dhs), p.st.ckr.value, p.st.nr, q.log[k].msg.header.pn))
  {
    var m := q.log[k].msg;
    OpenedIsBehind(q, used, p, k);
    var cut := CutOf(q, p);
    OpenedIsNotCached(q, used, p, cut, k);
    CopyKeepsEarly(p.st, drawn, m, q.log[k].ad);
    var spoiled := Decrypted(p.st, drawn, m, q.log[k].ad).0;
    hide Decrypted;
    var w := Stretch(Pub(q.st.dhs), p.st.ckr.value, p.st.nr, m.header.pn);
    SentLies(q, p, used, w);
    var skips := SkippedRun(p.st.dhr.value, p.st.ckr.value, p.st.nr, SaturatingSub(m.header.pn, p.st.nr));
    forall n: nat | w.from <= n < w.until ensures Found(spoiled.skipped, w.KeyAt(n)) {
      StretchIsFound(q, used, p, spoiled.skipped, skips, w, n);
    }
  }

  lemma SentLies(q: Side, p: Side, used: set<PrivId>, w: Stretch)
    requires Genuine(q, used) && Synced(q, p) && p.st.ckr.Some?
    requires w == Stretch(Pub(q.st.dhs), p.st.ckr.value, p.st.nr, w.until)
    ensures forall m | m in q.log && m.msg.header.dh == w.dh :: OnStretch(m, q.st, w)
  {
    forall m | m in q.log && m.msg.header.dh == w.dh ensures OnStretch(m, q.st, w) {
      var k :| 0 <= k < |q.log| && q.log[k] == m;
      var cut := |q.log| - q.st.ns + p.st.nr;
      NumberTaken(q, used, cut, |q.log|, p.st.ckr.value, w.dh, p.st.nr, k);
      if p.st.nr <= m.msg.header.n {
        assert Carries(q.log[k], Advance(p.st.ckr.value, k - cut), w.dh, p.st.nr + (k - cut));
      }
    }
  }

  lemma StretchIsFound(q: Side, used: set<PrivId>, p: Side, cache: seq<SkippedKey>, skips: seq<SkippedKey>, w: Stretch, n: nat)
    requires Genuine(q, used) && Synced(q, p) && p.st.ckr.Some? && w.from <= n < w.until <= U32_LIMIT
    requires w == Stretch(Pub(q.st.dhs), p.st.ckr.value, p.st.nr, w.until)
    requires skips == SkippedRun(w.dh, w.ck, w.from, w.until - w.from) && p.st.skipped + skips <= cache
    ensures Found(cache, w.KeyAt(n))
  {
    var pos := |p.st.skipped| + (n - w.from);
    assert (p.st.skipped + skips)[pos] == skips[n - w.from] == w.KeyAt(n);
    forall j | 0 <= j < pos ensures cache[j].dhPub != w.dh || cache[j].n != n {
      assert cache[j] == (p.st.skipped + skips)[j];
      if j < |p.st.skipped| && cache[j].dhPub == w.dh {
        NothingCachedAhead(q, used, p, cache[j]);
      }
    }
    assert cache[pos] == w.KeyAt(n);
  }

  /** In every continuation a number cached ahead, sent since, opens. */
  lemma AheadOpens(run: Run, who: Who, index: nat, drawn: PrivId, spoiled: Run, rest: seq<Event>, later: nat, drawn': PrivId)
    requires Paired(run) && Synced(run.Remote(who), run.Local(who))
    requires index in run.Local(who).received && index < |run.Remote(who).log| && drawn !in run.used
    requires run.Local(who).st.dhr != Some(run.Remote(who).log[index].msg.header.dh)
    requires !RefusedAtOnce(run.Local(who).st, run.Remote(who).log[index].msg.header)
    requires spoiled == run.With(who, run.Local(who).(st := Delivered(run, who, index, drawn).0), {drawn})
    requires Possible(spoiled, rest) && Enabled(AfterAll(spoiled, rest), Deliver(who, later, drawn'))
    requires var h := AfterAll(spoiled, rest).Remote(who).log[later].msg.header;
             run.Local(who).st.dhr == Some(h.dh) && run.Local(who).st.nr <= h.n < run.Remote(who).log[index].msg.header.pn
    ensures var end := AfterAll(spoiled, rest);
            Delivered(end, who, later, drawn').1 == Success(end.Remote(who).log[later].plaintext)
  {
    var q, p := run.Remote(who), run.Local(who);
    assert p.st.dhr == Some(Pub(q.st.dhs)) && Genuine(q, run.used);
    CopyForesees(q, p, run.used, index, drawn);
    hide Decrypted, Foreseen, Synced, Genuine, RefusedAtOnce;
    var w := Stretch(Pub(q.st.dhs), p.st.ckr.value, p.st.nr, q.log[index].msg.header.pn);
    RunStaysForeseen(spoiled, who, w, rest);
    var end := AfterAll(spoiled, rest);
    ForeseenOpens(end.Remote(who), end.Local(who), end.used, w, later, drawn');
  }

  // ----- what opens -----

  /** After a copy of an older chain that was not refused at once, and in every continuation, a message sent
      since the copy opens if and only if it goes to the side that took the copy in and is one of those
      numbers of the chain it was following that the copy's own header made it cache ahead. (The secret `sk`
      is an HKDF output, so it has no links of its own.) */
  lemma NothingSentSinceOpens(sk: Key, a: PrivId, b: PrivId, events: seq<Event>, who: Who, index: nat, drawn: PrivId,
                              rest: seq<Event>, reader: Who, later: nat, drawn': PrivId)
    requires a != b && Links(sk) == {} && Possible(Handshaken(sk, a, b), events)
    requires var run := AfterAll(Handshaken(sk, a, b), events);
             && index in run.Local(who).received && index < |run.Remote(who).log| && drawn !in run.used
             && run.Local(who).st.dhr != Some(run.Remote(who).log[index].msg.header.dh)
             && !RefusedAtOnce(run.Local(who).st, run.Remote(who).log[index].msg.header)
    requires var run := AfterAll(Handshaken(sk, a, b), events);
             var spoiled := run.With(who, run.Local(who).(st := Delivered(run, who, index, drawn).0), {drawn});
             && Possible(spoiled, rest) && Enabled(AfterAll(spoiled, rest), Deliver(reader, later, drawn'))
             && later >= |spoiled.Remote(reader).log|
    ensures var run := AfterAll(Handshaken(sk, a, b), events);
            var spoiled := run.With(who, run.Local(who).(st := Delivered(run, who, index, drawn).0), {drawn});
            var end := AfterAll(spoiled, rest);
            var h := end.Remote(reader).log[later].msg.header;
            Delivered(end, reader, later, drawn').1.Success? <==>
              reader == who && run.Local(who).st.dhr == Some(h.dh) &&
              run.Local(who).st.nr <= h.n < run.Remote(who).log[index].msg.header.pn
    ensures var run := AfterAll(Handshaken(sk, a, b), events);
            var spoiled := run.With(who, run.Local(who).(st := Delivered(run, who, index, drawn).0), {drawn});
            var end := AfterAll(spoiled, rest);
            var r := Delivered(end, reader, later, drawn').1;
            r.Success? ==> r.value == end.Remote(reader).log[later].plaintext
  {
    var run, links := KnottedReach(sk, a, b, events);
    var spoiled, at := SpoiledApart(run, links, who, index, drawn);
    HonestIsLossy(sk, a, b, events);
    hide *;
    RunStaysApart(spoiled, who, at, rest);
    var end := AfterAll(spoiled, rest);
    var h := end.Remote(reader).log[later].msg.header;
    if reader != who {
      OutsiderReads(end, who, reader, at, later, drawn');
    } else {
      AheadOnly(end, who, at, later, drawn');
      if run.Local(who).st.dhr == Some(h.dh) && run.Local(who).st.nr <= h.n < run.Remote(who).log[index].msg.header.pn {
        SinceIsSynced(run, who, h, at);
        AheadOpens(run, who, index, drawn, spoiled, rest, later, drawn');
      }
    }
  }

  lemma OutsiderReads(run: Run, who: Who, reader: Who, at: Moment, k: nat, drawn: PrivId)
    requires ApartRun(run, who, at) && reader != who && Enabled(run, Deliver(reader, k, drawn)) && k >= at.sentBack
    ensures Delivered(run, reader, k, drawn).1.Failure?
  {
    SenderReceivesApart(run.Remote(who), run.Local(who), run.used, at, k, drawn);
  }

  lemma AheadOnly(run: Run, who: Who, at: Moment, k: nat, drawn: PrivId)
    requires ApartRun(run, who, at) && Enabled(run, Deliver(who, k, drawn)) && k >= at.sentTo
    ensures Since(run.Remote(who).log[k].msg.header, at)
    ensures Delivered(run, who, k, drawn).1.Success? ==> exists e :: e in at.early && Matches(e, run.Remote(who).log[k].msg.header)
  {
    ReceiverStaysApart(run.Remote(who), run.Local(who), run.used, at, k, drawn);
  }

  /** What is sent since on the chain the receiver was following is of the sender's own present key. */
  lemma SinceIsSynced(run: Run, who: Who, h: Header, at: Moment)
    requires Paired(run) && LossyRun(run) && at.dhs == run.Remote(who).st.dhs && at.used == run.used
    requires Since(h, at) && run.Local(who).st.dhr == Some(h.dh)
    ensures Synced(run.Remote(who), run.Local(who))
  {
    assert h.dh.id in run.used;
  }

  // ----- a run in which it happens -----

  /** It is `other`'s turn, and it has read all that `who` has sent on its present chain. */
  ghost predicate Level(run: Run, who: Who, other: Who) {
    var q, p := run.Local(who).st, run.Local(other).st;
    OnTurn(run, other, who) && q.cks.Some? && p.ckr == q.cks && p.nr == q.ns && p.dhr == Some(Pub(q.dhs))
  }

  /** A send and its delivery on a chain both are on. */
  lemma Again(run: Run, who: Who, other: Who, x: bytes, ad: bytes, drawn: PrivId) returns (events: seq<Event>, next: Run)
    requires Level(run, who, other) && drawn !in run.used && run.Local(who).st.ns + 1 < U32_LIMIT
    ensures Possible(run, events) && next == AfterAll(run, events) && next.used == run.used + {drawn}
    ensures Level(next, who, other)
    ensures var q, q', p, p' := run.Local(who), next.Local(who), run.Local(other), next.Local(other);
            && q'.st == q.st.(cks := q'.st.cks, ns := q.st.ns + 1) && |q'.log| == |q.log| + 1 && q'.log[..|q.log|] == q.log
            && q'.log[|q.log|].msg.header == Header(Pub(q.st.dhs), q.st.pn, q.st.ns)
            && q'.received == q.received && p'.log == p.log && p'.received == p.received + {|q.log|}
  {
    var k := |run.Local(who).log|;
    var sent := SendStep(run, who, x, ad);
    var m := sent.Local(who).log[k];
    hide Encrypted;
    TriesTheNext(run.Local(other).st, drawn, m.msg, m.ad);
    next := After(sent, Deliver(other, k, drawn));
    TwoSteps(run, Send(who, x, ad), Deliver(other, k, drawn));
    events := [Send(who, x, ad), Deliver(other, k, drawn)];
  }

  /** Alice sends three messages on her first chain, and Bob opens each. */
  lemma ThreeOnOneChain(start: Run, x: bytes, ad: bytes) returns (events: seq<Event>, run: Run)
    requires OnTurn(start, Alice, Bob) && (forall d | d in start.used :: d < 2) && start.Local(Alice).log == []
    ensures Possible(start, events) && run == AfterAll(start, events)
    ensures OnTurn(run, Bob, Alice) && (forall d | d in run.used :: d < 5)
    ensures run.Local(Alice).st.ns == 3 && |run.Local(Alice).log| == 3
  {
    assert U32_LIMIT > 3;
    hide *;
    var one := [Send(Alice, x, ad), Deliver(Bob, |start.Local(Alice).log|, 2)];
    var next := Leg(start, Alice, Bob, x, ad, 2);
    LegLevels(next, Alice, Bob);
    var more, end := TwiceAgain(next, x, ad);
    RunsJoin(start, one, more);
    events, run := one + more, end;
  }

  lemma TwiceAgain(run: Run, x: bytes, ad: bytes) returns (events: seq<Event>, end: Run)
    requires Level(run, Alice, Bob) && (forall d | d in run.used :: d < 3) && run.Local(Alice).st.ns + 2 < U32_LIMIT
    ensures Possible(run, events) && end == AfterAll(run, events) && OnTurn(end, Bob, Alice) && (forall d | d in end.used :: d < 5)
    ensures end.Local(Alice).st.ns == run.Local(Alice).st.ns + 2 && |end.Local(Alice).log| == |run.Local(Alice).log| + 2
  {
    hide *;
    var two, next := Again(run, Alice, Bob, x, ad, 3);
    var three, last := Again(next, Alice, Bob, x, ad, 4);
    RunsJoin(run, two, three);
    LevelTurns(last, Alice, Bob);
    events, end := two + three, last;
  }

  lemma LegLevels(run: Run, who: Who, other: Who)
    requires OnTurn(run, other, who) && run.Local(who).st.cks.Some? && run.Local(other).st.ckr == run.Local(who).st.cks
    requires run.Local(other).st.nr == run.Local(who).st.ns && run.Local(other).st.dhr == Some(Pub(run.Local(who).st.dhs))
    ensures Level(run, who, other)
  {
  }

  lemma LevelTurns(run: Run, who: Who, other: Who)
    requires Level(run, who, other)
    ensures OnTurn(run, other, who)
  {
  }

  /** Bob replies, and Alice sends one message of her second chain; again, and one of her third. */
  lemma TwoMoreChains(run: Run, x: bytes, ad: bytes) returns (events: seq<Event>, end: Run)
    requires OnTurn(run, Bob, Alice) && (forall d | d in run.used :: d < 5)
    requires run.Local(Alice).st.ns == 3 && |run.Local(Alice).log| == 3
    ensures Possible(run, events) && end == AfterAll(run, events) && OnTurn(end, Bob, Alice)
    ensures (forall d | d in end.used :: d < 9) && |end.Local(Alice).log| == 5 && 3 in end.Local(Bob).received
    ensures end.Local(Alice).st.ns == 1 && end.Local(Alice).st.cks.Some? && end.Local(Alice).log[3].msg.header == Header(Pub(5), 3, 0)
    ensures end.Local(Bob).st.dhr == Some(Pub(7)) && end.Local(Alice).st.dhs == 7 && end.Local(Bob).st.nr == 1
  {
    hide *;
    var r4 := Leg(run, Bob, Alice, x, ad, 5);
    var r5 := Leg(r4, Alice, Bob, x, ad, 6);
    var r6 := Leg(r5, Bob, Alice, x, ad, 7);
    end := Leg(r6, Alice, Bob, x, ad, 8);
    var k, l := |run.Local(Bob).log|, |r5.Local(Bob).log|;
    var b1, a1 := [Send(Bob, x, ad), Deliver(Alice, k, 5)], [Send(Alice, x, ad), Deliver(Bob, 3, 6)];
    var b2, a2 := [Send(Bob, x, ad), Deliver(Alice, l, 7)], [Send(Alice, x, ad), Deliver(Bob, 4, 8)];
    RunsJoin(r5, b2, a2);
    ThreeRuns(run, b1, a1, b2 + a2);
    events := b1 + (a1 + (b2 + a2));
    assert end.Local(Alice).log[3] == end.Local(Alice).log[..4][3] == r5.Local(Alice).log[3];
  }

  /** Three messages of one chain are opened, one of the next, and one of the third; then the message of the
      second chain comes again, which makes Bob cache numbers 1 and 2 of the third. So the next message opens,
      though the two sides no longer agree. */
  lemma AheadHappens(x: bytes, y: bytes, ad: bytes) returns (events: seq<Event>)
    ensures Possible(Handshaken(Random(0), 0, 1), events)
    ensures var run := AfterAll(Handshaken(Random(0), 0, 1), events);
            && 3 in run.bob.received && |run.alice.log| == 5 && 9 !in run.used
            && run.bob.st.dhr != Some(run.alice.log[3].msg.header.dh)
            && var spoiled := run.With(Bob, run.bob.(st := Delivered(run, Bob, 3, 9).0), {9});
            && !OneStepAhead(spoiled, Alice) && !OneStepAhead(spoiled, Bob)
            && Enabled(spoiled, Send(Alice, y, ad))
            && var sent := After(spoiled, Send(Alice, y, ad));
            |sent.alice.log| == 6 && Delivered(sent, Bob, 5, 10).1 == Success(y)
  {
    var start := FirstTurn();
    hide *;
    var first, mid := ThreeOnOneChain(start, x, ad);
    var more, run := TwoMoreChains(mid, x, ad);
    RunsJoin(start, first, more);
    events := first + more;
    TurnsAreRead(run);
    CopyOfTheSecond(events, run, y, ad);
  }

  lemma TurnsAreRead(run: Run)
    requires OnTurn(run, Bob, Alice)
    ensures run.Local(Bob).st.skipped == [] && forall i | i in run.Local(Bob).received :: i < |run.Local(Alice).log|
  {
  }

  lemma CopyOfTheSecond(events: seq<Event>, run: Run, y: bytes, ad: bytes)
    requires Possible(Handshaken(Random(0), 0, 1), events) && run == AfterAll(Handshaken(Random(0), 0, 1), events)
    requires (forall d | d in run.used :: d < 9) && |run.Local(Alice).log| == 5 && 3 in run.Local(Bob).received
    requires run.Local(Alice).st.ns == 1 && run.Local(Alice).st.cks.Some? && run.Local(Alice).log[3].msg.header == Header(Pub(5), 3, 0)
    requires run.Local(Bob).st.dhr == Some(Pub(7)) && run.Local(Alice).st.dhs == 7 && run.Local(Bob).st.nr == 1
    requires run.Local(Bob).st.skipped == [] && forall i | i in run.Local(Bob).received :: i < 5
    ensures && 3 in run.bob.received && |run.alice.log| == 5 && 9 !in run.used
            && run.bob.st.dhr != Some(run.alice.log[3].msg.header.dh)
            && var spoiled := run.With(Bob, run.bob.(st := Delivered(run, Bob, 3, 9).0), {9});
            && !OneStepAhead(spoiled, Alice) && !OneStepAhead(spoiled, Bob)
            && Enabled(spoiled, Send(Alice, y, ad))
            && var sent := After(spoiled, Send(Alice, y, ad));
            |sent.alice.log| == 6 && Delivered(sent, Bob, 5, 10).1 == Success(y)
  {
    hide AfterAll, Possible, Decrypted, OneStepAhead, Handshaken;
    CopyBreaksAgreement(Random(0), 0, 1, events, Bob, 3, 9);
    var spoiled := run.With(Bob, run.bob.(st := Delivered(run, Bob, 3, 9).0), {9});
    var sent := SendStep(spoiled, Alice, y, ad);
    EndsThere(sent);
    Steps(spoiled, Send(Alice, y, ad), []);
    assert [Send(Alice, y, ad)] + [] == [Send(Alice, y, ad)];
    NothingSentSinceOpens(Random(0), 0, 1, events, Bob, 3, 9, [Send(Alice, y, ad)], Bob, 5, 10);
  }
}
