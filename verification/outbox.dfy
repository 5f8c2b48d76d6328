/** What a session's producers can observe of it, and the non-blocking enqueue of
    session.go (writeMessage) as a function on that view. */
module Outbox {
  import opened Wrappers
  import opened Envelopes
  import opened Errors
  import opened Callbacks

  /** A session's open flag, its pending outbound queue (oldest first) and the callbacks
      invoked for it so far. */
  datatype Outbound = Outbound(open: bool, queue: seq<Envelope>, log: seq<Event>)

  /** True when Offer(v, capacity, e) puts e into the queue. */
  predicate Accepts(v: Outbound, capacity: nat) {
    v.open && |v.queue| < capacity
  }

  /** writeMessage: refused on a closed session, dropped on a full queue, each refusal
      reported once to the error callback; never blocks and never reorders. */
  function Offer(v: Outbound, capacity: nat, e: Envelope): (r: Outbound)
    ensures r.open == v.open
    ensures Accepts(v, capacity) ==> r.queue == v.queue + [e] && r.log == v.log
    ensures !Accepts(v, capacity) ==> r.queue == v.queue && |r.log| == |v.log| + 1 && v.log <= r.log
    ensures !v.open ==> r.log[|v.log|..] == [ErrorReported(WriteToClosedSession)]
    ensures v.open && |v.queue| >= capacity ==> r.log[|v.log|..] == [ErrorReported(BufferFull)]
    ensures |v.queue| <= capacity ==> |r.queue| <= capacity
  {
    if !v.open then v.(log := v.log + [ErrorReported(WriteToClosedSession)])
    else if |v.queue| < capacity then v.(queue := v.queue + [e])
    else v.(log := v.log + [ErrorReported(BufferFull)])
  }

  /** Offering the envelopes es one after another, first to last. */
  function OfferAll(v: Outbound, capacity: nat, es: seq<Envelope>): Outbound
    decreases |es|
  {
    if es == [] then v
    else Offer(OfferAll(v, capacity, es[..|es| - 1]), capacity, es[|es| - 1])
  }

  /** Offering the same envelope n times in a row. */
  function OfferTimes(v: Outbound, capacity: nat, e: Envelope, n: nat): Outbound
    decreases n
  {
    if n == 0 then v else Offer(OfferTimes(v, capacity, e, n - 1), capacity, e)
  }

  /** Offering an envelope n times is offering the run of n copies of it. */
  lemma {:induction false} OfferTimesIsOfferAll(v: Outbound, capacity: nat, e: Envelope, n: nat)
    ensures OfferTimes(v, capacity, e, n) == OfferAll(v, capacity, Repeat(e, n))
    decreases n
  {
    if n > 0 {
      OfferTimesIsOfferAll(v, capacity, e, n - 1);
      assert Repeat(e, n)[..n - 1] == Repeat(e, n - 1);
    }
  }

  /** Offering e and then a run es is offering the run e, es. */
  lemma {:induction false} OfferAllFront(v: Outbound, capacity: nat, e: Envelope, es: seq<Envelope>)
    ensures OfferAll(v, capacity, [e] + es) == OfferAll(Offer(v, capacity, e), capacity, es)
    decreases |es|
  {
    if es == [] {
      assert ([e] + es)[..0] == [];
    } else {
      var init := es[..|es| - 1];
      OfferAllFront(v, capacity, e, init);
      assert ([e] + es)[..|es|] == [e] + init;
    }
  }

  /** Backpressure on an open session: of a run of envelopes, those that fit are queued
      behind what was already pending, in their own order; every later one is dropped with
      exactly one "buffer full" report, and the session stays open. */
  lemma {:induction false} OfferAllOpen(v: Outbound, capacity: nat, es: seq<Envelope>)
    requires v.open && |v.queue| <= capacity
    ensures var room := capacity - |v.queue|;
            var kept := if |es| <= room then |es| else room;
            OfferAll(v, capacity, es)
              == Outbound(true, v.queue + es[..kept], v.log + Repeat(ErrorReported(BufferFull), |es| - kept))
    decreases |es|
  {
    if es != [] {
      var init := es[..|es| - 1];
      OfferAllOpen(v, capacity, init);
      var room := capacity - |v.queue|;
      var kept := if |init| <= room then |init| else room;
      if |es| <= room {
        assert es[..|es|] == init + [es[|es| - 1]];
      } else {
        assert es[..room] == init[..kept];
        assert Repeat(ErrorReported(BufferFull), |es| - room)
            == Repeat(ErrorReported(BufferFull), |init| - kept) + [ErrorReported(BufferFull)];
      }
    }
  }

  /** On a closed session every offer is refused: the queue stays as it is and each
      offer is reported once as a write to a closed session. */
  lemma {:induction false} OfferAllClosed(v: Outbound, capacity: nat, es: seq<Envelope>)
    requires !v.open
    ensures OfferAll(v, capacity, es)
              == Outbound(false, v.queue, v.log + Repeat(ErrorReported(WriteToClosedSession), |es|))
    decreases |es|
  {
    if es != [] {
      OfferAllClosed(v, capacity, es[..|es| - 1]);
    }
  }
}
