/** A session (session.go): one connection, its bounded outbound queue, its open flag and
    its metadata map. Channel operations are sequential here: an enqueue is a method call,
    and each pump runs over the queue, or over the inbound items, it is given. */
module Sessions {
  import opened Wrappers
  import opened Envelopes
  import opened Errors
  import opened Callbacks
  import opened Outbox
  import opened Pumps

  class Session<V> {
    /** The capacity of the outbound channel, fixed when the session is made. */
    const capacity: nat
    /** The callback table of the manager that made the session. */
    const handlers: Handlers
    /** The metadata map; None is Go's nil map. */
    var keys: Option<map<string, V>>
    /** Envelopes enqueued and not yet taken by the write pump, oldest first. */
    var output: seq<Envelope>
    /** Cleared by CloseOutput; the outbound channel is closed at the same moment. */
    var open: bool
    /** The callbacks invoked for this session so far, in order. */
    var log: seq<Event>
    /** Set once the write pump has returned; its goroutine is started once and never again. */
    var writeStopped: bool
    /** Set once the read pump has returned after a read error. */
    var readStopped: bool

    ghost predicate Valid()
      reads this
    {
      |output| <= capacity
    }

    /** What producers and the write pump can observe. */
    function View(): Outbound
      reads this
    {
      Outbound(open, output, log)
    }

    constructor (capacity: nat, keys: Option<map<string, V>>, handlers: Handlers)
      ensures Valid() && open && output == [] && log == [] && !writeStopped && !readStopped
      ensures this.capacity == capacity && this.keys == keys && this.handlers == handlers
    {
      this.capacity := capacity;
      this.handlers := handlers;
      this.keys := keys;
      output := [];
      open := true;
      log := [];
      writeStopped := false;
      readStopped := false;
    }

    /** closed() and IsClosed(): the session is closed exactly when its open flag is
        cleared. */
    function IsClosed(): (b: bool)
      reads this
      ensures b <==> !open
    {
      !open
    }

    /** A callback of the manager invoked on this session, recorded as event e. */
    method Notify(e: Event)
      requires Valid()
      modifies this`log
      ensures Valid() && log == old(log) + [e]
      ensures output == old(output) && open == old(open) && keys == old(keys)
    {
      log := log + [e];
    }

    /** writeMessage: the non-blocking enqueue of Outbox.Offer. */
    method WriteMessage(e: Envelope)
      requires Valid()
      modifies this`output, this`log
      ensures Valid() && keys == old(keys)
      ensures View() == Offer(old(View()), capacity, e)
    {
      if IsClosed() {
        log := log + [ErrorReported(WriteToClosedSession)];
        return;
      }
      if |output| < capacity {
        output := output + [e];
      } else {
        log := log + [ErrorReported(BufferFull)];
      }
    }

    /** writeRaw, given the connection's answer to the write it would make: a closed
        session fails before the connection is touched; otherwise the connection's
        failure is wrapped. */
    function WriteRaw(result: WriteResult): (err: Option<Error>)
      reads this
      ensures !open ==> err == Some(WriteToClosedSession)
      ensures open ==> (err == None <==> result == Delivered)
      ensures open && result.WriteFailed? ==> err == Some(WriteFailure(result.cause))
    {
      if IsClosed() then Some(WriteToClosedSession)
      else match result
        case Delivered => None
        case WriteFailed(cause) => Some(WriteFailure(cause))
    }

    /** close(): idempotent; the first call clears the open flag and closes the outbound
        channel (what it still buffers stays there); later calls change nothing. */
    method CloseOutput()
      modifies this`open
      ensures !open
      ensures output == old(output) && log == old(log) && keys == old(keys)
    {
      if !IsClosed() {
        open := false;
      }
    }

    /** writePump, with results[i] the connection's answer to the i-th frame written. The
        keepalive ticker is not modelled. */
    method WritePump(results: seq<WriteResult>) returns (attempted: seq<Envelope>, stop: PumpStop)
      requires Valid() && |results| >= |output| && !writeStopped
      modifies this`output, this`log, this`writeStopped
      ensures Valid() && open == old(open) && keys == old(keys)
      ensures writeStopped <==> stop != Waiting
      ensures var r := Drain(old(open), old(output), results);
        && attempted == r.attempted && stop == r.stop
        && output == old(output)[r.taken..]
        && log == old(log) + r.log
    {
      var isOpen := open;
      var queue := output;
      var answers := results;
      var notices: seq<Event> := [];
      attempted := [];
      stop := Waiting;
      var stopped := false;
      ghost var taken := 0;
      ghost var run := Resume(isOpen, queue, answers, 0, [], []);
      while !stopped
        invariant taken <= |old(output)| && queue == old(output)[taken..]
        invariant |answers| >= |queue|
        invariant isOpen == open == old(open) && output == old(output) && log == old(log) && keys == old(keys)
        invariant !stopped ==> Resume(isOpen, queue, answers, taken, attempted, notices) == run
        invariant stopped ==> PumpRun(taken, attempted, notices, stop) == run
        decreases |queue|, !stopped
      {
        if queue == [] {
          stop := if isOpen then Waiting else QueueClosed;
          stopped := true;
        } else {
          var msg := queue[0];
          var err := WriteRaw(answers[0]);
          queue := queue[1..];
          answers := answers[1..];
          taken := taken + 1;
          if err.Some? {
            if isOpen {
              attempted := attempted + [msg];
            }
            notices := notices + [ErrorReported(err.value)];
            stop := Failed(err.value);
            stopped := true;
          } else {
            attempted := attempted + [msg];
            if msg.t == CloseMessage {
              stop := CloseWritten;
              stopped := true;
            } else if msg.t == TextMessage {
              notices := notices + [MessageSent(msg.msg)];
            }
          }
        }
      }
      ResumeIsDrain(isOpen, old(output), results, 0, [], []);
      output := queue;
      log := log + notices;
      writeStopped := stop != Waiting;
    }

    /** readPump over the inbound items `frames`. The close callback is hooked only if one
        is set when the pump starts. Read limit and deadlines are not modelled. */
    method ReadPump(frames: seq<Inbound>) returns (stopped: bool)
      requires Valid() && !readStopped
      modifies this`log, this`readStopped
      ensures Valid() && readStopped == stopped
      ensures var r := Dispatch(frames, handlers.closeHandler.Some?);
        stopped == r.stopped && log == old(log) + r.log
      ensures output == old(output) && open == old(open) && keys == old(keys)
    {
      var closeHook := handlers.closeHandler.Some?;
      ghost var run := Listen(frames, closeHook, 0, log);
      ListenIsDispatch(frames, closeHook, 0, log);
      var i := 0;
      while i < |frames|
        invariant 0 <= i <= |frames|
        invariant Listen(frames[i..], closeHook, i, log) == run
        invariant output == old(output) && open == old(open) && keys == old(keys) && !readStopped
      {
        var f := frames[i];
        assert frames[i..][0] == f && frames[i..][1..] == frames[i + 1..];
        if f.ReadFailed? {
          log := log + [ErrorReported(ReadFailure(f.cause))];
          readStopped := true;
          return true;
        }
        // the frame switch: Text to the message callback, pong and close to their hooks
        log := log + Notice(f, closeHook);
        i := i + 1;
      }
      return false;
    }

    /** Write: refused with an error on a closed session; otherwise a Text envelope is
        offered and nil is returned, even when the offer was dropped. */
    method Write(msg: seq<byte>) returns (err: Option<Error>)
      requires Valid()
      modifies this`output, this`log
      ensures Valid() && keys == old(keys) && open == old(open)
      ensures err.Some? <==> !old(open)
      ensures !old(open) ==> err == Some(SessionIsClosed) && View() == old(View())
      ensures old(open) ==> View() == Offer(old(View()), capacity, TextEnvelope(msg))
    {
      if IsClosed() {
        return Some(SessionIsClosed);
      }
      WriteMessage(TextEnvelope(msg));
      return None;
    }

    /** Close: asks the write pump to send a Close frame with an empty payload; the open
        flag is left as it is. */
    method Close() returns (err: Option<Error>)
      requires Valid()
      modifies this`output, this`log
      ensures Valid() && keys == old(keys) && open == old(open)
      ensures err.Some? <==> !old(open)
      ensures !old(open) ==> err == Some(SessionAlreadyClosed) && View() == old(View())
      ensures old(open) ==> View() == Offer(old(View()), capacity, CloseEnvelope([]))
    {
      if IsClosed() {
        return Some(SessionAlreadyClosed);
      }
      WriteMessage(CloseEnvelope([]));
      return None;
    }

    /** CloseWithMsg: as Close, with the given payload in the Close frame. */
    method CloseWithMsg(msg: seq<byte>) returns (err: Option<Error>)
      requires Valid()
      modifies this`output, this`log
      ensures Valid() && keys == old(keys) && open == old(open)
      ensures err.Some? <==> !old(open)
      ensures !old(open) ==> err == Some(SessionAlreadyClosed) && View() == old(View())
      ensures old(open) ==> View() == Offer(old(View()), capacity, CloseEnvelope(msg))
    {
      if IsClosed() {
        return Some(SessionAlreadyClosed);
      }
      WriteMessage(CloseEnvelope(msg));
      return None;
    }

    /** Set: creates the map if it is nil, then binds key to value. */
    method Set(key: string, value: V)
      modifies this`keys
      ensures keys.Some? && Get(key) == Some(value)
      ensures forall k :: k != key ==> Get(k) == old(Get(k))
      ensures keys.value.Keys == (if old(keys).Some? then old(keys).value.Keys else {}) + {key}
      ensures View() == old(View())
    {
      if keys.None? {
        keys := Some(map[]);
      }
      keys := Some(keys.value[key := value]);
    }

    /** Get: absent on a nil map and on a missing key. */
    function Get(key: string): (r: Option<V>)
      reads this
      ensures r.Some? <==> keys.Some? && key in keys.value
      ensures r.Some? ==> r.value == keys.value[key]
    {
      if keys.Some? && key in keys.value then Some(keys.value[key]) else None
    }

    /** MustGet: the Go library panics when the key is absent, so the key must be there. */
    function MustGet(key: string): (r: V)
      reads this
      requires keys.Some? && key in keys.value
      ensures Get(key) == Some(r)
    {
      keys.value[key]
    }
  }
}
