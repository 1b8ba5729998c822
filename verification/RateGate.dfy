// The rate limit on one-time prekeys, and the hourly sweep of its table.
module RateGate {
  import opened Wrappers
  import opened Words

  const COOLDOWN_SECS := 60

  /** `check_and_update_otpk_gate`. */
  function Gate(recent: map<Peer, int>, peer: Peer, now: int): (map<Peer, int>, bool) {
    if peer in recent && now - recent[peer] < COOLDOWN_SECS then (recent, false)
    else (recent[peer := now], true)
  }

  /** `prune_recent_otpk_fetches`. */
  function Pruned(recent: map<Peer, int>, now: int): map<Peer, int> {
    map p | p in recent && recent[p] >= now - COOLDOWN_SECS :: recent[p]
  }

  class FetchTable {
    var recent: map<Peer, int>

    constructor ()
      ensures recent == map[]
    {
      recent := map[];
    }

    method ShouldAttachOtpk(peer: Peer, now: int) returns (allow: bool)
      modifies this
      ensures (recent, allow) == Gate(old(recent), peer, now)
    {
      allow := !(peer in recent && now - recent[peer] < COOLDOWN_SECS);
      if allow {
        recent := recent[peer := now];
      }
    }

    method Prune(now: int)
      modifies this
      ensures recent == Pruned(old(recent), now)
    {
      var peers := recent.Keys;
      var kept := recent;
      while peers != {}
        invariant peers <= recent.Keys && kept.Keys <= recent.Keys
        invariant recent == old(recent) && forall p | p in kept :: kept[p] == recent[p]
        invariant forall p | p in recent :: p in kept <==> p in peers || recent[p] >= now - COOLDOWN_SECS
        decreases |peers|
      {
        ghost var some := Element(peers);
        var p :| p in peers;
        peers := peers - {p};
        if recent[p] < now - COOLDOWN_SECS {
          kept := kept - {p};
        }
      }
      recent := kept;
    }
  }

  // ----- runs -----

  datatype Event = Fetch(peer: Peer, at: int) | Sweep(at: int)

  ghost predicate InOrder(from: int, events: seq<Event>)
    decreases |events|
  {
    events != [] ==> from <= events[0].at && InOrder(events[0].at, events[1..])
  }

  /** The answers to the fetches, with sweeps carried out or ignored. */
  function Answers(recent: map<Peer, int>, events: seq<Event>, sweeping: bool): seq<bool>
    decreases |events|
  {
    if events == [] then []
    else match events[0]
      case Fetch(peer, at) =>
        var (after, allow) := Gate(recent, peer, at);
        [allow] + Answers(after, events[1..], sweeping)
      case Sweep(at) => Answers(if sweeping then Pruned(recent, at) else recent, events[1..], sweeping)
  }

  /** The swept table has lost only entries too old to matter at `now`. */
  ghost predicate Swept(swept: map<Peer, int>, full: map<Peer, int>, now: int) {
    && (forall p | p in swept :: p in full && full[p] == swept[p])
    && (forall p | p in full && p !in swept :: full[p] < now - COOLDOWN_SECS)
  }

  /** Sweeping never changes an answer, as long as the clock does not run backwards. */
  lemma {:induction false} SweepingIsInvisible(swept: map<Peer, int>, full: map<Peer, int>, now: int,
                        events: seq<Event>)
    requires Swept(swept, full, now) && InOrder(now, events)
    ensures Answers(swept, events, true) == Answers(full, events, false)
    decreases |events|
  {
    if events != [] {
      match events[0]
      case Fetch(peer, at) =>
        assert Swept(Gate(swept, peer, at).0, Gate(full, peer, at).0, at);
        SweepingIsInvisible(Gate(swept, peer, at).0, Gate(full, peer, at).0, at, events[1..]);
      case Sweep(at) =>
        SweepingIsInvisible(Pruned(swept, at), full, at, events[1..]);
    }
  }

  /** When `peer` was granted a one-time prekey. */
  function Grants(recent: map<Peer, int>, events: seq<Event>, peer: Peer): seq<int>
    decreases |events|
  {
    if events == [] then []
    else match events[0]
      case Fetch(p, at) =>
        var (after, allow) := Gate(recent, p, at);
        (if p == peer && allow then [at] else []) + Grants(after, events[1..], peer)
      case Sweep(at) => Grants(Pruned(recent, at), events[1..], peer)
  }

  predicate Spaced(times: seq<int>) {
    forall i | 0 < i < |times| :: times[i - 1] + COOLDOWN_SECS <= times[i]
  }

  /** Grants to a peer come at least a cooldown after the recorded one, and after each other. */
  lemma {:induction false} GrantsSpaced(recent: map<Peer, int>, now: int, events: seq<Event>, peer: Peer)
    requires InOrder(now, events)
    ensures var g := Grants(recent, events, peer);
            Spaced(g) && (g != [] ==> now <= g[0] && (peer in recent ==> recent[peer] + COOLDOWN_SECS <= g[0]))
    decreases |events|
  {
    if events != [] {
      match events[0]
      case Fetch(p, at) =>
        var (after, allow) := Gate(recent, p, at);
        GrantsSpaced(after, at, events[1..], peer);
      case Sweep(at) =>
        GrantsSpaced(Pruned(recent, at), at, events[1..], peer);
    }
  }

  function CountWithin(times: seq<int>, from: int, to: int): nat {
    if times == [] then 0
    else CountWithin(times[..|times| - 1], from, to) + (if from <= times[|times| - 1] <= to then 1 else 0)
  }

  lemma {:induction false} SpacedCount(times: seq<int>, from: int, to: int)
    requires from <= to
    requires Spaced(times)
    ensures CountWithin(times, from, to) <= (to - from) / COOLDOWN_SECS + 1
    ensures times != [] && times[|times| - 1] <= to ==>
              CountWithin(times, from, to) == 0 ||
              from + COOLDOWN_SECS * (CountWithin(times, from, to) - 1) <= times[|times| - 1]
  {
    if times != [] {
      var front := times[..|times| - 1];
      assert Spaced(front);
      SpacedCount(front, from, to);
    }
  }

  /** In any window of T seconds no peer is granted more than T/60 + 1 one-time prekeys. */
  lemma WindowBound(events: seq<Event>, start: int, peer: Peer, from: int, T: nat)
    requires InOrder(start, events)
    ensures CountWithin(Grants(map[], events, peer), from, from + T) <= T / COOLDOWN_SECS + 1
  {
    GrantsSpaced(map[], start, events, peer);
    SpacedCount(Grants(map[], events, peer), from, from + T);
  }

  function After(recent: map<Peer, int>, events: seq<Event>): map<Peer, int>
    decreases |events|
  {
    if events == [] then recent
    else match events[0]
      case Fetch(p, at) => After(Gate(recent, p, at).0, events[1..])
      case Sweep(at) => After(Pruned(recent, at), events[1..])
  }

  function EndOf(from: int, events: seq<Event>): int {
    if events == [] then from else events[|events| - 1].at
  }

  /** All of `grants` are a cooldown old. */
  ghost predicate Over(grants: seq<int>, at: int) {
    forall g | g in grants :: g + COOLDOWN_SECS <= at
  }

  /** The table has the last of the grants to `peer`, or all of them are over. */
  ghost predicate Remembers(recent: map<Peer, int>, past: seq<int>, peer: Peer, now: int) {
    if peer in recent then recent[peer] in past && recent[peer] <= now && forall g | g in past :: g <= recent[peer]
    else Over(past, now)
  }

  lemma FetchRemembers(recent: map<Peer, int>, past: seq<int>, now: int, peer: Peer, p: Peer, at: int)
    requires Remembers(recent, past, peer, now) && now <= at
    ensures var (next, allow) := Gate(recent, p, at);
            Remembers(next, past + (if p == peer && allow then [at] else []), peer, at)
    ensures Gate(recent, peer, at).1 <==> Over(past, at)
  {
    assert past + [] == past;
  }

  lemma SweepRemembers(recent: map<Peer, int>, past: seq<int>, now: int, peer: Peer, at: int)
    requires Remembers(recent, past, peer, now) && now <= at
    ensures Remembers(Pruned(recent, at), past, peer, at)
  {
  }

  lemma {:induction false} GrantedAfter(recent: map<Peer, int>, past: seq<int>, now: int, events: seq<Event>, peer: Peer, at: int)
    requires Remembers(recent, past, peer, now) && InOrder(now, events) && EndOf(now, events) <= at
    ensures Gate(After(recent, events), peer, at).1 <==> Over(past + Grants(recent, events, peer), at)
    decreases |events|
  {
    hide Remembers, Over, Gate, Pruned;
    if events == [] {
      FetchRemembers(recent, past, now, peer, peer, at);
      assert past + [] == past;
    } else {
      match events[0]
      case Fetch(p, t) =>
        var (next, allow) := Gate(recent, p, t);
        var granted := if p == peer && allow then [t] else [];
        FetchRemembers(recent, past, now, peer, p, t);
        GrantedAfter(next, past + granted, t, events[1..], peer, at);
        assert past + (granted + Grants(next, events[1..], peer)) == (past + granted) + Grants(next, events[1..], peer);
      case Sweep(t) =>
        SweepRemembers(recent, past, now, peer, t);
        GrantedAfter(Pruned(recent, t), past, t, events[1..], peer, at);
    }
  }

  /** Exactly: after any fetches and sweeps, a fetch is granted if and only if no grant to that peer fell in
      the 60 seconds before it. */
  lemma GrantedExactly(events: seq<Event>, start: int, peer: Peer, at: int)
    requires InOrder(start, events) && EndOf(start, events) <= at
    ensures Gate(After(map[], events), peer, at).1 <==>
              forall g | g in Grants(map[], events, peer) :: g + COOLDOWN_SECS <= at
  {
    GrantedAfter(map[], [], start, events, peer, at);
    assert [] + Grants(map[], events, peer) == Grants(map[], events, peer);
  }
}
