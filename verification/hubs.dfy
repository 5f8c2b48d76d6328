/** The hub (hub.go): the set of registered sessions and the open flag, changed only by
    the four events of its control loop, which here are processed one call at a time. */
module Hubs {
  import opened Wrappers
  import opened Envelopes
  import opened Errors
  import opened Callbacks
  import opened Outbox
  import opened Sessions

  /** What the exit sweep does to one member: the exit envelope is offered, then
      Session.Close offers a Close envelope with an empty payload if the session is open.
      With room for both, an open member ends with both queued behind what it had. */
  function Evicted(v: Outbound, capacity: nat, e: Envelope): (r: Outbound)
    ensures r.open == v.open
    ensures v.queue <= r.queue && |r.queue| <= |v.queue| + 2
    ensures v.open && |v.queue| + 2 <= capacity ==>
              r.queue == v.queue + [e, CloseEnvelope([])] && r.log == v.log
    ensures !v.open ==> r.queue == v.queue && r.log == v.log + [ErrorReported(WriteToClosedSession)]
    ensures |v.queue| <= capacity ==> |r.queue| <= capacity
  {
    var w := Offer(v, capacity, e);
    if w.open then Offer(w, capacity, CloseEnvelope([])) else w
  }

  /** The exit sweep on one member: writeMessage with the exit envelope, then Session.Close. */
  method Evict<V>(s: Session<V>, msg: Envelope)
    requires s.Valid()
    modifies s`output, s`log
    ensures s.Valid() && s.keys == old(s.keys)
    ensures s.View() == Evicted(old(s.View()), s.capacity, msg)
  {
    s.WriteMessage(msg);
    var _ := s.Close();
  }

  /** One event read by the control loop: a value received on the register, unregister,
      broadcast or exit channel. */
  datatype HubEvent<V> =
    | RegisterEvent(s: Session<V>)
    | UnregisterEvent(s: Session<V>)
    | BroadcastEvent(msg: Envelope)
    | ExitEvent(msg: Envelope)

  /** The membership after the events, from membership m: register adds, unregister
      removes, broadcast leaves it alone, exit empties it for good. */
  function Members<V>(m: set<Session<V>>, events: seq<HubEvent<V>>): (r: set<Session<V>>)
    ensures r <= m + Registrants(events)
    decreases |events|
  {
    if events == [] then m
    else
      RegistrantsTail(events);
      match events[0]
      case RegisterEvent(s) => Members(m + {s}, events[1..])
      case UnregisterEvent(s) => Members(m - {s}, events[1..])
      case BroadcastEvent(_) => Members(m, events[1..])
      case ExitEvent(_) => {}
  }

  /** Whether s is registered after one event, given whether it was before. */
  function MemberAfterEvent<V>(s: Session<V>, member: bool, ev: HubEvent<V>): (b: bool)
    ensures ev.RegisterEvent? && ev.s == s ==> b
    ensures ev.UnregisterEvent? && ev.s == s ==> !b
  {
    match ev
    case RegisterEvent(t) => member || t == s
    case UnregisterEvent(t) => member && t != s
    case BroadcastEvent(_) => member
    case ExitEvent(_) => false
  }

  /** The view of s after one event, from view v: a broadcast offers its envelope to s if
      s is a member, the exit sweeps s if s is a member, and the other events leave it. */
  function ViewAfterEvent<V>(s: Session<V>, member: bool, v: Outbound, ev: HubEvent<V>): (r: Outbound)
    ensures r.open == v.open && v.queue <= r.queue
    ensures !member ==> r == v
  {
    match ev
    case BroadcastEvent(e) => if member then Offer(v, s.capacity, e) else v
    case ExitEvent(e) => if member then Evicted(v, s.capacity, e) else v
    case _ => v
  }

  /** What the events do to session s, starting from view v, where member says whether s
      is registered; the exit event is the last one the loop reads. */
  function ViewAfter<V>(s: Session<V>, member: bool, v: Outbound, events: seq<HubEvent<V>>): (r: Outbound)
    ensures r.open == v.open && v.queue <= r.queue
    decreases |events|
  {
    if events == [] then v
    else
      var w := ViewAfterEvent(s, member, v, events[0]);
      if events[0].ExitEvent? then w
      else ViewAfter(s, MemberAfterEvent(s, member, events[0]), w, events[1..])
  }

  /** The envelopes the broadcast events carry, in order. */
  function BroadcastMessages<V>(events: seq<HubEvent<V>>): (es: seq<Envelope>)
    ensures |es| <= |events|
    decreases |events|
  {
    if events == [] then []
    else (if events[0].BroadcastEvent? then [events[0].msg] else []) + BroadcastMessages(events[1..])
  }

  /** A run of broadcasts reaches a member as that run of envelopes offered in order. */
  lemma {:induction false} BroadcastsReachMember<V>(s: Session<V>, v: Outbound, events: seq<HubEvent<V>>)
    requires forall i :: 0 <= i < |events| ==> events[i].BroadcastEvent?
    ensures ViewAfter(s, true, v, events) == OfferAll(v, s.capacity, BroadcastMessages(events))
    decreases |events|
  {
    if events != [] {
      var e := events[0].msg;
      assert forall i :: 0 <= i < |events[1..]| ==> events[1..][i] == events[i + 1];
      BroadcastsReachMember(s, Offer(v, s.capacity, e), events[1..]);
      OfferAllFront(v, s.capacity, e, BroadcastMessages(events[1..]));
    }
  }

  /** With room for all of them, n broadcasts reach an open member in the order they were
      sent, behind what it already had queued, and nothing is reported. */
  lemma BroadcastsQueueInOrder<V>(s: Session<V>, v: Outbound, events: seq<HubEvent<V>>)
    requires forall i :: 0 <= i < |events| ==> events[i].BroadcastEvent?
    requires v.open && |v.queue| + |events| <= s.capacity
    ensures ViewAfter(s, true, v, events) == Outbound(true, v.queue + BroadcastMessages(events), v.log)
  {
    var es := BroadcastMessages(events);
    BroadcastsReachMember(s, v, events);
    OfferAllOpen(v, s.capacity, es);
    assert es[..|es|] == es;
  }

  /** The sessions some register event of the sequence carries. */
  function Registrants<V>(events: seq<HubEvent<V>>): set<Session<V>> {
    set i | 0 <= i < |events| && events[i].RegisterEvent? :: events[i].s
  }

  /** A register event names a registrant. */
  lemma RegisterNamesRegistrant<V>(events: seq<HubEvent<V>>, i: nat)
    requires i < |events|
    ensures events[i].RegisterEvent? ==> events[i].s in Registrants(events)
  {
  }

  /** Exit is terminal: once an exit event is among the events, nothing after it brings a
      member back, and the hub ends with no members. */
  lemma {:induction false} ExitEmptiesMembership<V>(m: set<Session<V>>, events: seq<HubEvent<V>>, i: nat)
    requires i < |events| && events[i].ExitEvent?
    ensures Members(m, events) == {}
    decreases i
  {
    if !events[0].ExitEvent? {
      assert events[1..][i - 1] == events[i];
      match events[0]
      case RegisterEvent(s) => ExitEmptiesMembership(m + {s}, events[1..], i - 1);
      case UnregisterEvent(s) => ExitEmptiesMembership(m - {s}, events[1..], i - 1);
      case BroadcastEvent(_) => ExitEmptiesMembership(m, events[1..], i - 1);
    }
  }

  /** The registrants of the later events are registrants of the whole sequence, and so is
      the session the first event registers. */
  lemma RegistrantsTail<V>(events: seq<HubEvent<V>>)
    requires events != []
    ensures Registrants(events[1..]) <= Registrants(events)
    ensures events[0].RegisterEvent? ==> events[0].s in Registrants(events)
  {
    forall t | t in Registrants(events[1..]) ensures t in Registrants(events) {
      var j :| 0 <= j < |events[1..]| && events[1..][j].RegisterEvent? && events[1..][j].s == t;
      assert events[j + 1] == events[1..][j];
    }
  }

  /** A session no register or unregister event names keeps its membership as long as no
      exit comes. */
  lemma {:induction false} UnnamedSessionKeepsMembership<V>(m: set<Session<V>>, events: seq<HubEvent<V>>, t: Session<V>)
    requires forall i :: 0 <= i < |events| ==> !events[i].ExitEvent?
    requires forall i :: 0 <= i < |events| && (events[i].RegisterEvent? || events[i].UnregisterEvent?) ==> events[i].s != t
    ensures t in Members(m, events) <==> t in m
    decreases |events|
  {
    if events != [] {
      var rest := events[1..];
      forall i | 0 <= i < |rest| ensures rest[i] == events[i + 1] { }
      match events[0]
      case RegisterEvent(s) => UnnamedSessionKeepsMembership(m + {s}, rest, t);
      case UnregisterEvent(s) => UnnamedSessionKeepsMembership(m - {s}, rest, t);
      case BroadcastEvent(_) => UnnamedSessionKeepsMembership(m, rest, t);
    }
  }

  class Hub<V> {
    /** The registered sessions (the keys of the Go map; its values are unused). */
    var sessions: set<Session<V>>
    var open: bool

    ghost predicate Valid()
      reads this, sessions
    {
      && (!open ==> sessions == {})
      && forall s :: s in sessions ==> s.Valid()
    }

    /** newHub: no sessions, open. */
    constructor ()
      ensures Valid() && open && sessions == {}
    {
      sessions := {};
      open := true;
    }

    /** The register case: adds the session; registering it again changes nothing. */
    method Register(s: Session<V>)
      requires Valid() && open && s.Valid()
      modifies this
      ensures Valid() && open
      ensures sessions == old(sessions) + {s}
    {
      sessions := sessions + {s};
    }

    /** The unregister case: removes the session if it is a member, otherwise nothing. */
    method Unregister(s: Session<V>)
      requires Valid() && open
      modifies this
      ensures Valid() && open
      ensures sessions == old(sessions) - {s}
    {
      if s in sessions {
        sessions := sessions - {s};
      }
    }

    /** The broadcast case: every member is offered the same envelope. The filter is
        not evaluated: every member receives the envelope whatever the filter says. */
    method Broadcast(msg: Envelope, filter: Option<Session<V> -> bool>)
      requires Valid() && open
      modifies sessions`output, sessions`log
      ensures Valid()
      ensures forall s :: s in sessions ==>
                s.View() == Offer(old(s.View()), s.capacity, msg) && s.keys == old(s.keys)
    {
      var pending := sessions;
      while pending != {}
        invariant pending <= sessions
        invariant forall s :: s in sessions ==> s.Valid() && s.keys == old(s.keys)
        invariant forall s :: s in sessions && s !in pending ==>
                    s.View() == Offer(old(s.View()), s.capacity, msg)
        invariant forall s :: s in pending ==> s.View() == old(s.View())
        decreases pending
      {
        var s :| s in pending;
        s.WriteMessage(msg);
        pending := pending - {s};
      }
    }

    /** The exit case: every member is offered the exit envelope, removed and closed
        (Session.Close); then the hub is closed. */
    method Exit(msg: Envelope)
      requires Valid() && open
      modifies this, sessions`output, sessions`log
      ensures Valid() && !open && sessions == {}
      ensures forall s :: s in old(sessions) ==>
                && s.Valid() && s.keys == old(s.keys)
                && s.View() == Evicted(old(s.View()), s.capacity, msg)
    {
      ghost var members := sessions;
      while sessions != {}
        invariant sessions <= members
        invariant forall s :: s in members ==> s.Valid() && s.keys == old(s.keys)
        invariant forall s :: s in members && s !in sessions ==>
                    s.View() == Evicted(old(s.View()), s.capacity, msg)
        invariant forall s :: s in sessions ==> s.View() == old(s.View())
        decreases sessions
      {
        var s :| s in sessions;
        sessions := sessions - {s};
        Evict(s, msg);
      }
      open := false;
    }

    /** closed(): true exactly when the exit event has been processed. */
    function Closed(): (b: bool)
      reads this, sessions
      ensures b <==> !open
      ensures Valid() && b ==> sessions == {}
    {
      !open
    }

    /** len(): the number of members, 0 once closed. */
    function Len(): (n: nat)
      reads this, sessions
      ensures n == |sessions|
      ensures Valid() && !open ==> n == 0
    {
      |sessions|
    }

    /** run: processes the events in order and stops right after the first exit event;
        events after it are never processed. */
    method Run(events: seq<HubEvent<V>>) returns (processed: nat)
      requires Valid() && open
      requires forall s :: s in Registrants(events) ==> s.Valid()
      modifies this, sessions`output, sessions`log, Registrants(events)`output, Registrants(events)`log
      ensures Valid()
      ensures processed <= |events|
      ensures sessions == Members(old(sessions), events)
      ensures forall j :: 0 <= j < processed - 1 ==> !events[j].ExitEvent?
      ensures !open <==> 0 < processed && events[processed - 1].ExitEvent?
      ensures processed < |events| ==> !open
      ensures forall s :: s in old(sessions) + Registrants(events) ==>
                s.keys == old(s.keys) && s.View() == ViewAfter(s, s in old(sessions), old(s.View()), events)
    {
      ghost var tracked := old(sessions) + Registrants(events);
      processed := 0;
      while processed < |events|
        invariant processed <= |events|
        invariant Valid() && open
        invariant Members(old(sessions), events) == Members(sessions, events[processed..])
        invariant forall j :: 0 <= j < processed ==> !events[j].ExitEvent?
        invariant sessions <= tracked
        invariant forall s :: s in tracked ==>
                    && s.Valid() && s.keys == old(s.keys)
                    && ViewAfter(s, s in old(sessions), old(s.View()), events)
                       == ViewAfter(s, s in sessions, s.View(), events[processed..])
        decreases |events| - processed
      {
        var ev := events[processed];
        RegisterNamesRegistrant(events, processed);
        var exit := Handle(ev, tracked, events, processed);
        processed := processed + 1;
        if exit {
          assert !open && events[processed - 1].ExitEvent?;
          return;
        }
      }
    }

    /** One pass of the control loop's select: the event ev is handled by its case, and
        the loop ends after an exit. */
    method Handle(ev: HubEvent<V>, ghost tracked: set<Session<V>>, ghost events: seq<HubEvent<V>>, ghost i: nat)
      returns (exit: bool)
      requires i < |events| && events[i] == ev
      requires Valid() && open && sessions <= tracked
      requires forall s :: s in tracked ==> s.Valid()
      requires ev.RegisterEvent? ==> ev.s in tracked
      modifies this, sessions`output, sessions`log
      ensures exit <==> ev.ExitEvent?
      ensures Valid() && open == !exit && sessions <= tracked
      ensures ev.RegisterEvent? ==> sessions == old(sessions) + {ev.s}
      ensures ev.UnregisterEvent? ==> sessions == old(sessions) - {ev.s}
      ensures ev.BroadcastEvent? ==> sessions == old(sessions)
      ensures ev.ExitEvent? ==> sessions == {}
      ensures forall s :: s in tracked ==>
                && (s in sessions <==> MemberAfterEvent(s, s in old(sessions), ev))
                && s.Valid() && s.keys == old(s.keys)
                && s.View() == ViewAfterEvent(s, s in old(sessions), old(s.View()), ev)
      ensures !exit ==> Members(old(sessions), events[i..]) == Members(sessions, events[i + 1..])
      ensures exit ==> sessions == Members(old(sessions), events[i..])
      ensures forall s :: s in tracked ==>
                ViewAfter(s, s in old(sessions), old(s.View()), events[i..])
                == if exit then s.View() else ViewAfter(s, s in sessions, s.View(), events[i + 1..])
    {
      match ev {
        case RegisterEvent(s) =>
          Register(s);
        case UnregisterEvent(s) =>
          Unregister(s);
        case BroadcastEvent(msg) =>
          Broadcast(msg, None);
        case ExitEvent(msg) =>
          Exit(msg);
      }
      exit := ev.ExitEvent?;
      assert events[i..][0] == ev && events[i..][1..] == events[i + 1..];
    }
  }
}
