/** The manager (manager.go): configuration, the callback table and the hub, and the public
    operations built on them. Every channel send to the hub is a direct call of the hub's
    event method. */
module Managers {
  import opened Wrappers
  import opened Envelopes
  import opened Errors
  import opened Configuration
  import opened Callbacks
  import opened Outbox
  import opened Pumps
  import opened Sessions
  import opened Hubs

  /** With the default configuration a fresh session queues the first envelope it is
      offered instead of dropping it. */
  lemma DefaultSessionAcceptsFirstEnvelope(e: Envelope, log: seq<Event>)
    ensures Offer(Outbound(true, [], log), NewConfig().messageBufferSize, e) == Outbound(true, [e], log)
  {
  }

  /** The outbound view of every session listed in ss. */
  ghost function Views<V>(ss: seq<Session<V>>): (m: map<Session<V>, Outbound>)
    reads ss
    ensures forall j :: 0 <= j < |ss| ==> ss[j] in m && m[ss[j]] == ss[j].View()
    decreases |ss|
  {
    if ss == [] then map[]
    else
      var last := ss[|ss| - 1];
      Views(ss[..|ss| - 1])[last := last.View()]
  }

  /** The number of leading sessions of ss whose view in m is open: BroadcastMultiple
      writes to these and stops at the next one. */
  function OpenPrefix<V>(m: map<Session<V>, Outbound>, ss: seq<Session<V>>): (k: nat)
    ensures k <= |ss|
    ensures forall j :: 0 <= j < k ==> ss[j] in m && m[ss[j]].open
    ensures k < |ss| ==> !(ss[k] in m && m[ss[k]].open)
    decreases |ss|
  {
    if ss == [] || ss[0] !in m || !m[ss[0]].open then 0 else 1 + OpenPrefix(m, ss[1..])
  }

  /** Up to the prefix length, a listed session is inside the prefix exactly when it is open. */
  lemma OpenPrefixAt<V>(m: map<Session<V>, Outbound>, ss: seq<Session<V>>, i: nat)
    requires i < |ss| && i <= OpenPrefix(m, ss)
    ensures i < OpenPrefix(m, ss) <==> ss[i] in m && m[ss[i]].open
  {
  }

  /** How many times t occurs in ss. */
  function Occurrences<T(==)>(ss: seq<T>, t: T): (n: nat)
    ensures n <= |ss|
    decreases |ss|
  {
    if ss == [] then 0 else Occurrences(ss[..|ss| - 1], t) + (if ss[|ss| - 1] == t then 1 else 0)
  }

  /** The outbound views after writing e to each of the first n sessions of ss in turn,
      starting from m. */
  function Written<V>(m: map<Session<V>, Outbound>, ss: seq<Session<V>>, e: Envelope, n: nat): (r: map<Session<V>, Outbound>)
    requires n <= |ss|
    ensures forall t :: t in m ==> t in r
  {
    if n == 0 then m
    else
      var before := Written(m, ss, e, n - 1);
      var t := ss[n - 1];
      if t in before then before[t := Offer(before[t], t.capacity, e)] else before
  }

  /** One more write: the session written to is offered e once more. */
  lemma WrittenNext<V>(m: map<Session<V>, Outbound>, ss: seq<Session<V>>, e: Envelope, n: nat)
    requires n < |ss| && ss[n] in Written(m, ss, e, n)
    ensures var before := Written(m, ss, e, n);
      Written(m, ss, e, n + 1) == before[ss[n] := Offer(before[ss[n]], ss[n].capacity, e)]
  {
  }

  /** Each session ends up offered e once per time it is listed. */
  lemma {:induction false} WrittenIsOfferTimes<V>(m: map<Session<V>, Outbound>, ss: seq<Session<V>>, e: Envelope, n: nat, t: Session<V>)
    requires n <= |ss|
    requires t in m
    ensures Written(m, ss, e, n)[t] == OfferTimes(m[t], t.capacity, e, Occurrences(ss[..n], t))
  {
    if n > 0 {
      WrittenIsOfferTimes(m, ss, e, n - 1, t);
      assert ss[..n][..n - 1] == ss[..n - 1];
    }
  }

  /** Every listed session is valid, keeps the open flag it had in initial and shows the
      view w holds for it. */
  ghost predicate Tracked<V>(ss: seq<Session<V>>, initial: map<Session<V>, Outbound>, w: map<Session<V>, Outbound>)
    reads ss
  {
    forall j :: 0 <= j < |ss| ==>
      && ss[j].Valid() && ss[j] in initial && ss[j] in w
      && ss[j].open == initial[ss[j]].open && ss[j].View() == w[ss[j]]
  }

  /** Session.Write on the i-th listed session, seen from the whole list: only that
      session's view moves, and it moves as w says. */
  method WriteListed<V>(msg: seq<byte>, ss: seq<Session<V>>, i: nat,
                        ghost initial: map<Session<V>, Outbound>, ghost w: map<Session<V>, Outbound>)
    returns (err: Option<Error>)
    requires i < |ss| && Tracked(ss, initial, w)
    modifies {ss[i]}`output, {ss[i]}`log
    ensures forall j :: 0 <= j < |ss| ==> ss[j].keys == old(ss[j].keys)
    ensures err.Some? <==> !initial[ss[i]].open
    ensures err.Some? ==> err.value == SessionIsClosed
    ensures Tracked(ss, initial, if err.Some? then w else w[ss[i] := Offer(w[ss[i]], ss[i].capacity, TextEnvelope(msg))])
  {
    var s := ss[i];
    err := s.Write(msg);
    forall j | 0 <= j < |ss| && ss[j] != s
      ensures ss[j].View() == old(ss[j].View())
    {
    }
  }

  class Manager<V> {
    var config: Config
    const handlers: Handlers
    const hub: Hub<V>

    ghost predicate Valid()
      reads this, hub, hub.sessions
    {
      && hub.Valid()
      && forall s :: s in hub.sessions ==> s.handlers == handlers
    }

    /** New: default configuration, an open hub with no sessions, no-op callbacks and no
        close callback. */
    constructor ()
      ensures Valid() && fresh(hub) && fresh(handlers)
      ensures config == NewConfig()
      ensures hub.open && hub.sessions == {}
      ensures handlers.messageHandler == NoOp && handlers.messageSentHandler == NoOp
      ensures handlers.errorHandler == NoOp && handlers.connectHandler == NoOp
      ensures handlers.disconnectHandler == NoOp && handlers.pongHandler == NoOp
      ensures handlers.closeHandler == None
    {
      config := NewConfig();
      handlers := new Handlers();
      hub := new Hub();
    }

    method HandleConnect(fn: Callback)
      modifies handlers`connectHandler
      ensures handlers.connectHandler == fn
    {
      handlers.connectHandler := fn;
    }

    method HandleDisconnect(fn: Callback)
      modifies handlers`disconnectHandler
      ensures handlers.disconnectHandler == fn
    {
      handlers.disconnectHandler := fn;
    }

    method HandlePong(fn: Callback)
      modifies handlers`pongHandler
      ensures handlers.pongHandler == fn
    {
      handlers.pongHandler := fn;
    }

    method HandleMessage(fn: Callback)
      modifies handlers`messageHandler
      ensures handlers.messageHandler == fn
    {
      handlers.messageHandler := fn;
    }

    method HandleSentMessage(fn: Callback)
      modifies handlers`messageSentHandler
      ensures handlers.messageSentHandler == fn
    {
      handlers.messageSentHandler := fn;
    }

    method HandleError(fn: Callback)
      modifies handlers`errorHandler
      ensures handlers.errorHandler == fn
    {
      handlers.errorHandler := fn;
    }

    /** HandleClose: a nil callback leaves the current one in place. */
    method HandleClose(fn: Option<Callback>)
      modifies handlers`closeHandler
      ensures handlers.closeHandler == if fn.Some? then fn else old(handlers.closeHandler)
    {
      if fn.Some? {
        handlers.closeHandler := fn;
      }
    }

    /** HandleRequestWithKeys for one connection. upgradeError is the upgrader's answer;
        frames is everything the connection yields, up to the read error that ends it.
        A closed manager refuses before upgrading. Otherwise the new session is open,
        holds the given keys, gets a queue of the configured capacity, is registered with
        the hub and only then announced to the connect callback; the read pump then runs
        until the read error, and the disconnect callback follows. The write pump, which
        wsocket starts concurrently, is left ready to run: Session.WritePump may be run
        on the returned session. */
    method HandleRequestWithKeys(keys: Option<map<string, V>>, upgradeError: Option<string>, frames: seq<Inbound>)
      returns (err: Option<Error>, session: Session?<V>)
      requires Valid()
      requires hub.open && upgradeError.None? ==> config.messageBufferSize >= 0
      requires hub.open && upgradeError.None? ==> exists i :: 0 <= i < |frames| && frames[i].ReadFailed?
      modifies hub
      ensures Valid() && hub.open == old(hub.open)
      ensures !old(hub.open) ==>
                err == Some(ManagerClosed) && session == null && hub.sessions == old(hub.sessions)
      ensures old(hub.open) && upgradeError.Some? ==>
                err == Some(UpgradeFailure(upgradeError.value)) && session == null
                && hub.sessions == old(hub.sessions)
      ensures old(hub.open) && upgradeError.None? ==>
                && err == None && session != null && fresh(session)
                && hub.sessions == old(hub.sessions) + {session}
                && session.open && session.output == [] && !session.writeStopped && session.readStopped
                && session.keys == keys && session.capacity == config.messageBufferSize
                && session.log == [Connected] + Dispatch(frames, handlers.closeHandler.Some?).log + [Disconnected]
    {
      if hub.Closed() {
        return Some(ManagerClosed), null;
      }
      if upgradeError.Some? {
        return Some(UpgradeFailure(upgradeError.value)), null;
      }
      session := Serve(keys, frames);
      err := None;
    }

    /** The accepted connection of HandleRequestWithKeys, from the new session to the
        disconnect callback. */
    method Serve(keys: Option<map<string, V>>, frames: seq<Inbound>) returns (session: Session<V>)
      requires Valid() && hub.open
      requires config.messageBufferSize >= 0
      requires exists i :: 0 <= i < |frames| && frames[i].ReadFailed?
      modifies hub
      ensures Valid() && hub.open
      ensures fresh(session) && hub.sessions == old(hub.sessions) + {session}
      ensures session.open && session.output == [] && !session.writeStopped && session.readStopped
      ensures session.keys == keys && session.capacity == config.messageBufferSize
      ensures session.log == [Connected] + Dispatch(frames, handlers.closeHandler.Some?).log + [Disconnected]
    {
      DispatchStopsAtFirstFailure(frames, handlers.closeHandler.Some?);
      session := new Session(config.messageBufferSize, keys, handlers);
      hub.Register(session);
      Announce(session);
      assert Valid() && session.log == [Connected];
      var _ := session.ReadPump(frames);
      assert Valid();
      session.Notify(Disconnected);
    }

    /** The connect callback, invoked on a session the hub already holds: registration
        comes first. */
    method Announce(s: Session<V>)
      requires Valid() && s in hub.sessions
      modifies s`log
      ensures Valid() && s.log == old(s.log) + [Connected]
      ensures s.output == old(s.output) && s.open == old(s.open) && s.keys == old(s.keys)
    {
      s.Notify(Connected);
    }

    /** HandleRequest: HandleRequestWithKeys with a nil metadata map. */
    method HandleRequest(upgradeError: Option<string>, frames: seq<Inbound>)
      returns (err: Option<Error>, session: Session?<V>)
      requires Valid()
      requires hub.open && upgradeError.None? ==> config.messageBufferSize >= 0
      requires hub.open && upgradeError.None? ==> exists i :: 0 <= i < |frames| && frames[i].ReadFailed?
      modifies hub
      ensures Valid() && hub.open == old(hub.open)
      ensures !old(hub.open) ==>
                err == Some(ManagerClosed) && session == null && hub.sessions == old(hub.sessions)
      ensures old(hub.open) && upgradeError.Some? ==>
                err == Some(UpgradeFailure(upgradeError.value)) && session == null
                && hub.sessions == old(hub.sessions)
      ensures old(hub.open) && upgradeError.None? ==>
                && err == None && session != null && fresh(session)
                && hub.sessions == old(hub.sessions) + {session}
                && session.open && session.output == [] && !session.writeStopped && session.readStopped
                && session.keys == None && session.capacity == config.messageBufferSize
                && session.log == [Connected] + Dispatch(frames, handlers.closeHandler.Some?).log + [Disconnected]
    {
      err, session := HandleRequestWithKeys(None, upgradeError, frames);
    }

    /** Broadcast: refused on a closed manager; otherwise every registered session is
        offered one Text envelope with the payload. */
    method Broadcast(msg: seq<byte>) returns (err: Option<Error>)
      requires Valid()
      modifies hub.sessions`output, hub.sessions`log
      ensures Valid()
      ensures err.Some? <==> !hub.open
      ensures err.Some? ==> err.value == ManagerClosed
      ensures forall s :: s in hub.sessions ==>
                s.View() == Offer(old(s.View()), s.capacity, TextEnvelope(msg)) && s.keys == old(s.keys)
    {
      if hub.Closed() {
        return Some(ManagerClosed);
      }
      hub.Broadcast(TextEnvelope(msg), None);
      return None;
    }

    /** BroadcastFilter: as Broadcast; the filter travels with the envelope but the hub
        never applies it, so every registered session is offered the envelope. */
    method BroadcastFilter(msg: seq<byte>, fn: Session<V> -> bool) returns (err: Option<Error>)
      requires Valid()
      modifies hub.sessions`output, hub.sessions`log
      ensures Valid()
      ensures err.Some? <==> !hub.open
      ensures err.Some? ==> err.value == ManagerClosed
      ensures forall s :: s in hub.sessions ==>
                s.View() == Offer(old(s.View()), s.capacity, TextEnvelope(msg)) && s.keys == old(s.keys)
    {
      if hub.Closed() {
        return Some(ManagerClosed);
      }
      hub.Broadcast(TextEnvelope(msg), Some(fn));
      return None;
    }

    /** BroadcastOthers: BroadcastFilter with the filter "not s"; s itself is offered the
        envelope as well, since the filter is never applied. */
    method BroadcastOthers(msg: seq<byte>, s: Session<V>) returns (err: Option<Error>)
      requires Valid()
      modifies hub.sessions`output, hub.sessions`log
      ensures Valid()
      ensures err.Some? <==> !hub.open
      ensures err.Some? ==> err.value == ManagerClosed
      ensures forall t :: t in hub.sessions ==>
                t.View() == Offer(old(t.View()), t.capacity, TextEnvelope(msg)) && t.keys == old(t.keys)
    {
      err := BroadcastFilter(msg, q => s != q);
    }

    /** BroadcastMultiple: Session.Write on each listed session in order, returning the
        first error and writing to none after it. A session listed twice is written to
        twice. */
    method BroadcastMultiple(msg: seq<byte>, ss: seq<Session<V>>) returns (err: Option<Error>)
      requires forall i :: 0 <= i < |ss| ==> ss[i].Valid()
      modifies ss`output, ss`log
      ensures forall j :: 0 <= j < |ss| ==>
                ss[j].Valid() && ss[j].open == old(ss[j].open) && ss[j].keys == old(ss[j].keys)
      ensures var k := OpenPrefix(old(Views(ss)), ss);
        && (err.None? <==> k == |ss|)
        && (err.Some? ==> err.value == SessionIsClosed)
        && forall j :: 0 <= j < |ss| ==> ss[j].View() == Written(old(Views(ss)), ss, TextEnvelope(msg), k)[ss[j]]
    {
      err := None;
      ghost var initial := Views(ss);
      ghost var k := OpenPrefix(initial, ss);
      var i := 0;
      while i < |ss|
        invariant i <= k
        invariant forall j :: 0 <= j < |ss| ==> ss[j].keys == old(ss[j].keys)
        invariant Tracked(ss, initial, Written(initial, ss, TextEnvelope(msg), i))
      {
        OpenPrefixAt(initial, ss, i);
        var writeErr := WriteListed(msg, ss, i, initial, Written(initial, ss, TextEnvelope(msg), i));
        if writeErr.Some? {
          err := writeErr;
          break;
        }
        WrittenNext(initial, ss, TextEnvelope(msg), i);
        i := i + 1;
      }
      assert i == k;
    }

    /** Close: refused on a closed manager; otherwise the hub's exit sweep runs with a
        Close envelope carrying an empty payload. Either way the hub ends closed and
        empty. */
    method Close() returns (err: Option<Error>)
      requires Valid()
      modifies hub, hub.sessions`output, hub.sessions`log
      ensures Valid() && !hub.open && hub.sessions == {}
      ensures err.Some? <==> !old(hub.open)
      ensures err.Some? ==> err.value == ManagerAlreadyClosed
      ensures forall s :: s in old(hub.sessions) ==>
                s.View() == Evicted(old(s.View()), s.capacity, CloseEnvelope([])) && s.keys == old(s.keys)
    {
      if hub.Closed() {
        return Some(ManagerAlreadyClosed);
      }
      hub.Exit(CloseEnvelope([]));
      return None;
    }

    /** IsClosed: the hub's closed(). */
    function IsClosed(): (b: bool)
      reads this, hub, hub.sessions
      ensures b <==> !hub.open
      ensures Valid() && b ==> Len() == 0
    {
      hub.Closed()
    }

    /** Len: the hub's len(), the number of registered sessions. */
    function Len(): (n: nat)
      reads this, hub, hub.sessions
      ensures n == |hub.sessions|
    {
      hub.Len()
    }
  }
}
