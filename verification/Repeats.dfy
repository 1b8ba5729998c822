// Two peers and a network that may also repeat messages: any message may arrive any number of times.
module Repeats {
  import opened Wrappers
  import opened Words
  import opened Symbolic
  import opened RatchetSpec
  import opened Delivery

  /** Keys are drawn afresh and the sender's counter does not wrap; nothing is asked of what arrives. */
  predicate CanHappen(run: Run, e: Event) {
    match e
    case Send(who, _, _) => run.Local(who).st.ns + 1 < U32_LIMIT
    case Deliver(who, index, drawn) => index < |run.Remote(who).log| && drawn !in run.used
  }

  function Moved(run: Run, e: Event): Run
    requires CanHappen(run, e)
  {
    match e
    case Send(who, plaintext, ad) =>
      if run.Local(who).st.cks.Some? then run.With(who, SentOn(run.Local(who), plaintext, ad), {}) else run
    case Deliver(who, index, drawn) =>
      run.With(who, Received(run.Remote(who), run.Local(who), index, drawn), {drawn})
  }

  ghost predicate Feasible(run: Run, events: seq<Event>)
    decreases |events|
  {
    events != [] ==> CanHappen(run, events[0]) && Feasible(Moved(run, events[0]), events[1..])
  }

  ghost function Through(run: Run, events: seq<Event>): Run
    requires Feasible(run, events)
    decreases |events|
  {
    if events == [] then run else Through(Moved(run, events[0]), events[1..])
  }
}
