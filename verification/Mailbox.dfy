// Mailbox timing: which hourly slots a recipient queries, and how often a sender republishes.
module Mailbox {
  import opened Wrappers

  const SLOT_SECONDS := 3600
  const REPUBLISH_TICK_SECS := 600
  const REPUBLISH_AFTER_SECS := 1800
  const RECORD_LIFE_SECS := 3600
  const POLL_WINDOW := 24

  /** `div_euclid`, also before the epoch. */
  function SlotIdFor(unixSeconds: int): (slot: int)
    ensures slot * SLOT_SECONDS <= unixSeconds < (slot + 1) * SLOT_SECONDS
  {
    unixSeconds / SLOT_SECONDS
  }

  // ----- polling -----

  function PollStart(lastPolled: int, nowSlot: int): int {
    if lastPolled + 1 > nowSlot - (POLL_WINDOW - 1) then lastPolled + 1 else nowSlot - (POLL_WINDOW - 1)
  }

  predicate Queries(lastPolled: int, nowSlot: int, slot: int) {
    PollStart(lastPolled, nowSlot) <= slot <= nowSlot
  }

  function PolledTo(lastPolled: int, nowSlot: int): int {
    if PollStart(lastPolled, nowSlot) > nowSlot || nowSlot <= 0 then lastPolled else nowSlot - 1
  }

  class PollState {
    var lastPolled: int

    constructor ()
      ensures lastPolled == 0
    {
      lastPolled := 0;
    }

    /** `poll_mailbox_slots`: each slot asked for once, oldest first. */
    method PollMailboxSlots(now: int) returns (queried: seq<int>)
      modifies this
      ensures var nowSlot := SlotIdFor(now);
              && lastPolled == PolledTo(old(lastPolled), nowSlot)
              && (forall slot :: slot in queried <==> Queries(old(lastPolled), nowSlot, slot))
              && (forall i, j | 0 <= i < j < |queried| :: queried[i] < queried[j])
      ensures |queried| <= POLL_WINDOW
    {
      queried := [];
      var nowSlot := SlotIdFor(now);
      var start := PollStart(lastPolled, nowSlot);
      if start > nowSlot {
        return;
      }
      for slot := start to nowSlot + 1
        invariant |queried| == slot - start
        invariant forall i | 0 <= i < |queried| :: queried[i] == start + i
        invariant forall s | start <= s < slot :: s in queried
        invariant lastPolled == old(lastPolled)
      {
        ghost var before := queried;
        queried := queried + [slot];
        forall s | start <= s < slot + 1 ensures s in queried {
          assert s == slot || s in before;
        }
      }
      if nowSlot > 0 {
        lastPolled := nowSlot - 1;
      }
    }
  }

  /** How many of the polls at slots `polls` ask for `slot` after it has closed. */
  function ClosedQueries(lastPolled: int, polls: seq<int>, slot: int): nat
    decreases |polls|
  {
    if polls == [] then 0
    else (if slot < polls[0] && Queries(lastPolled, polls[0], slot) then 1 else 0) +
         ClosedQueries(PolledTo(lastPolled, polls[0]), polls[1..], slot)
  }

  ghost predicate NonDecreasing(from: int, polls: seq<int>)
    decreases |polls|
  {
    polls != [] ==> from <= polls[0] && NonDecreasing(polls[0], polls[1..])
  }

  /** The first poll made after `slot` has closed. */
  function FirstPollAfter(polls: seq<int>, slot: int): (i: nat)
    ensures i <= |polls|
    ensures i < |polls| ==> slot < polls[i]
    ensures forall j | 0 <= j < i :: polls[j] <= slot
    decreases |polls|
  {
    if polls == [] || slot < polls[0] then 0 else 1 + FirstPollAfter(polls[1..], slot)
  }

  lemma {:induction false} ClosedOnce(lastPolled: int, polls: seq<int>, slot: int)
    requires lastPolled >= 0 && NonDecreasing(lastPolled + 1, polls)
    ensures var i := FirstPollAfter(polls, slot);
            ClosedQueries(lastPolled, polls, slot) ==
              if slot > lastPolled && i < |polls| && slot >= polls[i] - (POLL_WINDOW - 1) then 1 else 0
    decreases |polls|
  {
    if polls != [] {
      ClosedOnce(PolledTo(lastPolled, polls[0]), polls[1..], slot);
    }
  }

  /** For every polling schedule with a clock that does not run backwards: a slot is asked for after it
      closes at most once, and it is asked for exactly when the first poll after it closed came within
      the window. */
  lemma PolledOnceAfterClosing(polls: seq<int>, slot: int)
    requires slot >= 1 && NonDecreasing(1, polls)
    ensures var i := FirstPollAfter(polls, slot);
            ClosedQueries(0, polls, slot) == if i < |polls| && slot >= polls[i] - (POLL_WINDOW - 1) then 1 else 0
  {
    ClosedOnce(0, polls, slot);
  }

  /** So with polls less than a window apart, every closed slot from the first poll's window on is asked for
      exactly once after it closes. */
  lemma NoSlotMissed(polls: seq<int>, slot: int)
    requires polls != [] && NonDecreasing(1, polls)
    requires forall i | 0 < i < |polls| :: polls[i] - polls[i - 1] <= POLL_WINDOW - 1
    requires 1 <= slot < polls[|polls| - 1] && slot >= polls[0] - (POLL_WINDOW - 1)
    ensures ClosedQueries(0, polls, slot) == 1
  {
    PolledOnceAfterClosing(polls, slot);
    var i := FirstPollAfter(polls, slot);
    if i > 0 && i < |polls| {
      assert polls[i - 1] <= slot && polls[i] - polls[i - 1] <= POLL_WINDOW - 1;
    }
  }

  // ----- republishing -----

  datatype Drop = Drop(lastPublished: int, expiresAt: int, acked: bool)

  predicate Due(d: Drop, now: int) {
    !d.acked && d.lastPublished < now - REPUBLISH_AFTER_SECS && d.expiresAt > now
  }

  /** A drop after a republish tick whose put succeeds. */
  function Ticked(d: Drop, now: int): Drop {
    if Due(d, now) then d.(lastPublished := now) else d
  }

  class DropTable {
    var drops: map<int, Drop>

    constructor ()
      ensures drops == map[]
    {
      drops := map[];
    }

    /** `republish_mailbox_drops`: `putOk` says for which rows the put succeeds. */
    method RepublishMailboxDrops(now: int, putOk: int -> bool)
      modifies this
      ensures drops.Keys == old(drops).Keys
      ensures forall id | id in old(drops) ::
                drops[id] == if putOk(id) then Ticked(old(drops)[id], now) else old(drops)[id]
    {
      var due := set id | id in drops && Due(drops[id], now);
      while due != {}
        invariant due <= drops.Keys == old(drops).Keys
        invariant forall id | id in due :: drops[id] == old(drops)[id] && Due(drops[id], now)
        invariant forall id | id in drops && id !in due ::
                    drops[id] == if putOk(id) then Ticked(old(drops)[id], now) else old(drops)[id]
        decreases |due|
      {
        ghost var some := Element(due);
        var id :| id in due;
        due := due - {id};
        if putOk(id) {
          drops := drops[id := drops[id].(lastPublished := now)];
        }
      }
    }

    method Acknowledge(id: int)
      modifies this
      ensures drops == if id in old(drops) then old(drops)[id := old(drops)[id].(acked := true)] else old(drops)
    {
      if id in drops {
        drops := drops[id := drops[id].(acked := true)];
      }
    }
  }

  ghost predicate SteadyTicks(from: int, ticks: seq<int>)
    decreases |ticks|
  {
    ticks != [] ==> from <= ticks[0] <= from + REPUBLISH_TICK_SECS && SteadyTicks(ticks[0], ticks[1..])
  }

  function AfterTicks(d: Drop, ticks: seq<int>): Drop
    decreases |ticks|
  {
    if ticks == [] then d else AfterTicks(Ticked(d, ticks[0]), ticks[1..])
  }

  function LastTick(from: int, ticks: seq<int>): int {
    if ticks == [] then from else ticks[|ticks| - 1]
  }

  lemma {:induction false} SteadyRepublish(d: Drop, from: int, ticks: seq<int>)
    requires !d.acked && SteadyTicks(from, ticks) && d.lastPublished <= from <= d.lastPublished + REPUBLISH_AFTER_SECS
    requires LastTick(from, ticks) < d.expiresAt
    ensures var end := AfterTicks(d, ticks);
            end.lastPublished <= LastTick(from, ticks) <= end.lastPublished + REPUBLISH_AFTER_SECS
    decreases |ticks|
  {
    if ticks != [] {
      TicksRise(ticks[0], ticks[1..]);
      SteadyRepublish(Ticked(d, ticks[0]), ticks[0], ticks[1..]);
    }
  }

  lemma {:induction false} TicksRise(from: int, ticks: seq<int>)
    requires SteadyTicks(from, ticks)
    ensures from <= LastTick(from, ticks)
    decreases |ticks|
  {
    if ticks != [] {
      TicksRise(ticks[0], ticks[1..]);
    }
  }

  /** With ticks at most REPUBLISH_TICK_SECS apart and successful puts, a live drop that nobody has
      acknowledged is at no moment older on the network than 2400 s, less than the life of a record. */
  lemma NeverStale(d: Drop, publishedAt: int, ticks: seq<int>, moment: int)
    requires d.lastPublished == publishedAt && !d.acked && SteadyTicks(publishedAt, ticks)
    requires LastTick(publishedAt, ticks) <= moment <= LastTick(publishedAt, ticks) + REPUBLISH_TICK_SECS
    requires moment < d.expiresAt
    ensures moment - AfterTicks(d, ticks).lastPublished <= 2400 < RECORD_LIFE_SECS
  {
    SteadyRepublish(d, publishedAt, ticks);
  }

  /** When a drop is published again, over ticks whose puts may fail: `ok` says for which moments they work. */
  function Republished(d: Drop, ticks: seq<int>, ok: int -> bool): seq<int>
    decreases |ticks|
  {
    if ticks == [] then []
    else if Due(d, ticks[0]) && ok(ticks[0]) then [ticks[0]] + Republished(Ticked(d, ticks[0]), ticks[1..], ok)
    else Republished(d, ticks[1..], ok)
  }

  ghost predicate HalfHourApart(times: seq<int>) {
    forall i, j | 0 <= i < j < |times| :: times[i] + REPUBLISH_AFTER_SECS < times[j]
  }

  lemma FirstThenLater(first: int, rest: seq<int>)
    requires HalfHourApart(rest) && forall t | t in rest :: first + REPUBLISH_AFTER_SECS < t
    ensures HalfHourApart([first] + rest)
  {
    var all := [first] + rest;
    forall i, j | 0 <= i < j < |all| ensures all[i] + REPUBLISH_AFTER_SECS < all[j] {
      assert all[j] == rest[j - 1] && rest[j - 1] in rest && (i == 0 || all[i] == rest[i - 1]);
    }
  }

  /** Over any ticks at all, in whatever order, an acknowledged drop is never published again, an expired one
      at no tick from its expiry on, and no drop twice within the half hour. */
  lemma {:induction false} NeverAfterTheEnd(d: Drop, ticks: seq<int>, ok: int -> bool)
    ensures d.acked ==> Republished(d, ticks, ok) == []
    ensures forall t | t in Republished(d, ticks, ok) :: t in ticks && t < d.expiresAt && t > d.lastPublished + REPUBLISH_AFTER_SECS
    ensures HalfHourApart(Republished(d, ticks, ok))
    decreases |ticks|
  {
    hide HalfHourApart;
    if ticks == [] {
      NothingApart();
    } else {
      assert ticks == [ticks[0]] + ticks[1..];
      if Due(d, ticks[0]) && ok(ticks[0]) {
        NeverAfterTheEnd(Ticked(d, ticks[0]), ticks[1..], ok);
        FirstThenLater(ticks[0], Republished(Ticked(d, ticks[0]), ticks[1..], ok));
      } else {
        NeverAfterTheEnd(d, ticks[1..], ok);
      }
    }
  }

  lemma NothingApart()
    ensures HalfHourApart([])
  {
  }

  /** One tick, in full: a drop is published again exactly when it is unacknowledged, alive and its last
      publication is more than half an hour old. */
  lemma RepublishedExactly(d: Drop, ticks: seq<int>, now: int, ok: int -> bool)
    requires Republished(d, ticks, ok) == []
    ensures Republished(d, ticks + [now], ok) == (if Due(d, now) && ok(now) then [now] else [])
    decreases |ticks|
  {
    if ticks == [] {
      assert [now][1..] == [];
      assert ticks + [now] == [now];
    } else {
      assert (ticks + [now])[1..] == ticks[1..] + [now];
      RepublishedExactly(d, ticks[1..], now, ok);
    }
  }
}
