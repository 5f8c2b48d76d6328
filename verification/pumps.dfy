/** The two loops of a session (session.go, writePump and readPump), each as a function of
    what the loop starts from and of what the connection answers, one event at a time. */
module Pumps {
  import opened Envelopes
  import opened Errors
  import opened Callbacks

  // ---------------------------------------------------------------------------------
  // Write pump
  // ---------------------------------------------------------------------------------

  /** What the connection answers to one frame write. */
  datatype WriteResult = Delivered | WriteFailed(cause: string)

  /** Why the write pump is no longer writing: it is blocked on an empty, still open queue,
      the queue was closed, a Close envelope went out, or a write failed. */
  datatype PumpStop = Waiting | QueueClosed | CloseWritten | Failed(err: Error)

  /** One run of the write pump: how many envelopes it took off the queue, the ones it
      handed to the connection (in order), the callbacks it invoked and why it stopped. */
  datatype PumpRun = PumpRun(taken: nat, attempted: seq<Envelope>, log: seq<Event>, stop: PumpStop)

  /** The write pump from a queue q, on a session whose open flag is `open`; results[i]
      is the connection's answer to the i-th frame written. A closed channel still yields
      what it buffered, so a closed session with pending envelopes receives one, fails in
      writeRaw before touching the connection, and stops. */
  function Drain(open: bool, q: seq<Envelope>, results: seq<WriteResult>): (r: PumpRun)
    requires |results| >= |q|
    ensures r.taken <= |q| && |r.attempted| <= r.taken
    ensures q != [] ==> r.taken > 0
    ensures r.stop == QueueClosed <==> !open && q == []
    ensures !open ==> r.attempted == [] && r.taken == (if q == [] then 0 else 1)
    decreases |q|
  {
    if q == [] then PumpRun(0, [], [], if open then Waiting else QueueClosed)
    else if !open then
      PumpRun(1, [], [ErrorReported(WriteToClosedSession)], Failed(WriteToClosedSession))
    else match results[0]
      case WriteFailed(cause) =>
        PumpRun(1, [q[0]], [ErrorReported(WriteFailure(cause))], Failed(WriteFailure(cause)))
      case Delivered =>
        if q[0].t == CloseMessage then PumpRun(1, [q[0]], [], CloseWritten)
        else
          var rest := Drain(open, q[1..], results[1..]);
          PumpRun(1 + rest.taken, [q[0]] + rest.attempted,
                  SentNotice(q[0]) + rest.log, rest.stop)
  }

  /** The write pump resumed partway through a run that has already taken `taken`
      envelopes, handed `attempted` to the connection and invoked `log`: the same steps
      as Drain, accumulated onto that state. */
  function Resume(open: bool, q: seq<Envelope>, results: seq<WriteResult>,
                  taken: nat, attempted: seq<Envelope>, log: seq<Event>): (r: PumpRun)
    requires |results| >= |q|
    ensures taken <= r.taken <= taken + |q|
    decreases |q|
  {
    if q == [] then PumpRun(taken, attempted, log, if open then Waiting else QueueClosed)
    else if !open then
      PumpRun(taken + 1, attempted, log + [ErrorReported(WriteToClosedSession)], Failed(WriteToClosedSession))
    else match results[0]
      case WriteFailed(cause) =>
        PumpRun(taken + 1, attempted + [q[0]], log + [ErrorReported(WriteFailure(cause))], Failed(WriteFailure(cause)))
      case Delivered =>
        if q[0].t == CloseMessage then PumpRun(taken + 1, attempted + [q[0]], log, CloseWritten)
        else if q[0].t == TextMessage then
          Resume(open, q[1..], results[1..], taken + 1, attempted + [q[0]], log + [MessageSent(q[0].msg)])
        else
          Resume(open, q[1..], results[1..], taken + 1, attempted + [q[0]], log)
  }

  /** Resuming is finishing the run from scratch and putting the state reached so far in
      front of it. */
  lemma {:induction false} ResumeIsDrain(open: bool, q: seq<Envelope>, results: seq<WriteResult>,
                                         taken: nat, attempted: seq<Envelope>, log: seq<Event>)
    requires |results| >= |q|
    ensures var d := Drain(open, q, results);
      Resume(open, q, results, taken, attempted, log)
        == PumpRun(taken + d.taken, attempted + d.attempted, log + d.log, d.stop)
    decreases |q|
  {
    if q != [] && open && results[0] == Delivered && q[0].t != CloseMessage {
      var rest := Drain(open, q[1..], results[1..]);
      var a := attempted + [q[0]];
      var l := log + SentNotice(q[0]);
      ResumeIsDrain(open, q[1..], results[1..], taken + 1, a, l);
      assert a + rest.attempted == attempted + ([q[0]] + rest.attempted);
      assert l + rest.log == log + (SentNotice(q[0]) + rest.log);
      if q[0].t != TextMessage {
        assert l == log;
      }
    } else if q != [] && !open {
      assert log + [ErrorReported(WriteToClosedSession)] == log + Drain(open, q, results).log;
    }
  }

  /** The message-sent callback a successfully written envelope triggers: only Text. */
  function SentNotice(e: Envelope): seq<Event> {
    if e.t == TextMessage then [MessageSent(e.msg)] else []
  }

  /** The message-sent callbacks for a run of successfully written envelopes. */
  function SentNotices(es: seq<Envelope>): seq<Event>
    decreases |es|
  {
    if es == [] then [] else SentNotice(es[0]) + SentNotices(es[1..])
  }

  /** The number of envelopes of a run that reached the peer. */
  function DeliveredCount(r: PumpRun): nat {
    if r.stop.Failed? && r.taken > 0 then r.taken - 1 else r.taken
  }

  /** FIFO: on an open session the pump takes envelopes from the front of the queue, in
      order, and hands every one it takes to the connection. */
  lemma {:induction false} DrainTakesFromFront(q: seq<Envelope>, results: seq<WriteResult>)
    requires |results| >= |q|
    ensures var r := Drain(true, q, results);
      r.attempted == q[..r.taken]
    decreases |q|
  {
    if q == [] {
    } else if results[0].WriteFailed? || q[0].t == CloseMessage {
      PrefixCons(q, 0);
    } else {
      DrainTakesFromFront(q[1..], results[1..]);
      PrefixCons(q, Drain(true, q[1..], results[1..]).taken);
    }
  }

  /** A prefix of a non-empty queue is its head followed by a prefix of its tail. */
  lemma PrefixCons(q: seq<Envelope>, n: nat)
    requires n < |q|
    ensures q[..n + 1] == [q[0]] + q[1..][..n]
  {
  }

  /** The pump goes past an envelope only if that envelope was written and was not a
      Close: every envelope it took, except the last, is a delivered non-Close. */
  lemma {:induction false} DrainPassesOnlyDelivered(q: seq<Envelope>, results: seq<WriteResult>)
    requires |results| >= |q|
    ensures var r := Drain(true, q, results);
      forall j :: 0 <= j < r.taken - 1 ==> q[j].t != CloseMessage && results[j] == Delivered
    decreases |q|
  {
    if q != [] && results[0] == Delivered && q[0].t != CloseMessage {
      DrainPassesOnlyDelivered(q[1..], results[1..]);
      var rest := Drain(true, q[1..], results[1..]);
      forall j | 1 <= j < 1 + rest.taken - 1
        ensures q[j].t != CloseMessage && results[j] == Delivered
      {
        assert q[j] == q[1..][j - 1] && results[j] == results[1..][j - 1];
      }
    }
  }

  /** The pump is left blocked on the queue exactly when the session is open and every
      envelope of the queue was written and none was a Close. */
  lemma {:induction false} DrainWaitsOnlyAfterCleanRun(open: bool, q: seq<Envelope>, results: seq<WriteResult>)
    requires |results| >= |q|
    ensures Drain(open, q, results).stop == Waiting <==>
            open && forall j :: 0 <= j < |q| ==> q[j].t != CloseMessage && results[j] == Delivered
    decreases |q|
  {
    if q != [] && open && results[0] == Delivered && q[0].t != CloseMessage {
      DrainWaitsOnlyAfterCleanRun(open, q[1..], results[1..]);
      assert (forall j :: 0 <= j < |q| ==> q[j].t != CloseMessage && results[j] == Delivered)
         <==> (forall j :: 0 <= j < |q[1..]| ==> q[1..][j].t != CloseMessage && results[1..][j] == Delivered);
    }
  }

  /** Why an open session's pump stopped otherwise: the last envelope it took is the Close
      it wrote or the one whose write failed, and a failure carries the connection's
      cause. */
  lemma {:induction false} DrainStopReason(q: seq<Envelope>, results: seq<WriteResult>)
    requires |results| >= |q|
    ensures var r := Drain(true, q, results);
      && (r.stop == CloseWritten ==>
            0 < r.taken && q[r.taken - 1].t == CloseMessage && results[r.taken - 1] == Delivered)
      && (r.stop.Failed? ==>
            0 < r.taken && results[r.taken - 1].WriteFailed?
            && r.stop.err == WriteFailure(results[r.taken - 1].cause))
    decreases |q|
  {
    if q != [] && results[0] == Delivered && q[0].t != CloseMessage {
      DrainStopReason(q[1..], results[1..]);
      var rest := Drain(true, q[1..], results[1..]);
      if rest.taken > 0 {
        assert q[rest.taken] == q[1..][rest.taken - 1];
        assert results[rest.taken] == results[1..][rest.taken - 1];
      }
    }
  }

  /** No duplicate Close frame on the wire: a Close is only ever the last frame a run of
      the pump writes, and a run that leaves the pump waiting for more wrote none. Any
      other run ends the pump for good, so over a session's life at most one Close frame
      is written. */
  lemma AtMostOneCloseWritten(open: bool, q: seq<Envelope>, results: seq<WriteResult>)
    requires |results| >= |q|
    ensures var r := Drain(open, q, results);
      forall i :: 0 <= i < |r.attempted| - 1 ==> r.attempted[i].t != CloseMessage
    ensures var r := Drain(open, q, results);
      r.stop == Waiting ==> forall i :: 0 <= i < |r.attempted| ==> r.attempted[i].t != CloseMessage
  {
    if open {
      DrainTakesFromFront(q, results);
      DrainPassesOnlyDelivered(q, results);
      DrainWaitsOnlyAfterCleanRun(open, q, results);
    }
  }

  /** The callbacks of a run: the message-sent callback for every Text envelope that
      reached the peer, in queue order, then one error report if the pump stopped on a
      failed write. */
  lemma {:induction false} DrainCallbacks(open: bool, q: seq<Envelope>, results: seq<WriteResult>)
    requires |results| >= |q|
    ensures var r := Drain(open, q, results);
      DeliveredCount(r) <= |q| &&
      r.log == SentNotices(q[..DeliveredCount(r)])
               + (if r.stop.Failed? then [ErrorReported(r.stop.err)] else [])
    decreases |q|
  {
    if q != [] && open && results[0] == Delivered && q[0].t != CloseMessage {
      DrainCallbacks(open, q[1..], results[1..]);
      var rest := Drain(open, q[1..], results[1..]);
      var n := DeliveredCount(rest);
      assert q[..1 + n][1..] == q[1..][..n];
    }
  }

  // ---------------------------------------------------------------------------------
  // Read pump
  // ---------------------------------------------------------------------------------

  /** What one read of the connection yields, as the read pump sees it: a data frame, a
      pong or a close frame (both taken by the hooks the pump installs), or a read error
      (a closed connection or an expired read deadline among them). */
  datatype Inbound =
    | Frame(t: MessageKind, data: seq<byte>)
    | PongArrived
    | CloseArrived(code: int, text: string)
    | ReadFailed(cause: string)

  /** One run of the read pump: frames consumed, callbacks invoked, and whether it
      stopped (otherwise it is still blocked on the next read). */
  datatype ReadRun = ReadRun(consumed: nat, log: seq<Event>, stopped: bool)

  /** The callbacks one inbound item that is not an error triggers: the message callback
      for a Text frame, the pong callback for a pong, the close callback for a close frame
      when one is installed, nothing for any other frame. */
  function Notice(f: Inbound, closeHook: bool): (r: seq<Event>)
    ensures |r| <= 1
    ensures r == [] <==> f.ReadFailed? || (f.Frame? && f.t != TextMessage) || (f.CloseArrived? && !closeHook)
    ensures r != [] ==>
      && (r[0].MessageReceived? <==> f.Frame?)
      && (r[0].Ponged? <==> f.PongArrived?)
      && (r[0].CloseHandled? <==> f.CloseArrived?)
    ensures r != [] && r[0].MessageReceived? ==> r[0].msg == f.data
    ensures r != [] && r[0].CloseHandled? ==> r[0].code == f.code && r[0].text == f.text
  {
    match f
    case Frame(t, data) => if t == TextMessage then [MessageReceived(data)] else []
    case PongArrived => [Ponged]
    case CloseArrived(code, text) => if closeHook then [CloseHandled(code, text)] else []
    case ReadFailed(_) => []
  }

  /** The read pump over the inbound items `frames`; closeHook says whether a close
      callback was set when the pump started. */
  function Dispatch(frames: seq<Inbound>, closeHook: bool): (r: ReadRun)
    ensures r.consumed <= |frames|
    decreases |frames|
  {
    if frames == [] then ReadRun(0, [], false)
    else if frames[0].ReadFailed? then ReadRun(1, [ErrorReported(ReadFailure(frames[0].cause))], true)
    else
      var rest := Dispatch(frames[1..], closeHook);
      ReadRun(1 + rest.consumed, Notice(frames[0], closeHook) + rest.log, rest.stopped)
  }

  /** The read pump resumed after it has consumed `consumed` items and invoked `log`: the
      same steps as Dispatch, accumulated onto that state. */
  function Listen(frames: seq<Inbound>, closeHook: bool, consumed: nat, log: seq<Event>): (r: ReadRun)
    ensures consumed <= r.consumed <= consumed + |frames|
    decreases |frames|
  {
    if frames == [] then ReadRun(consumed, log, false)
    else if frames[0].ReadFailed? then
      ReadRun(consumed + 1, log + [ErrorReported(ReadFailure(frames[0].cause))], true)
    else Listen(frames[1..], closeHook, consumed + 1, log + Notice(frames[0], closeHook))
  }

  /** Resuming the read pump is running it from scratch with the state reached so far in
      front. */
  lemma {:induction false} ListenIsDispatch(frames: seq<Inbound>, closeHook: bool, consumed: nat, log: seq<Event>)
    ensures var d := Dispatch(frames, closeHook);
      Listen(frames, closeHook, consumed, log) == ReadRun(consumed + d.consumed, log + d.log, d.stopped)
    decreases |frames|
  {
    if frames != [] && !frames[0].ReadFailed? {
      var head := Notice(frames[0], closeHook);
      var rest := Dispatch(frames[1..], closeHook);
      ListenIsDispatch(frames[1..], closeHook, consumed + 1, log + head);
      assert (log + head) + rest.log == log + (head + rest.log);
    }
  }

  /** The callbacks for a run of inbound items, in order. */
  function Notices(frames: seq<Inbound>, closeHook: bool): seq<Event>
    decreases |frames|
  {
    if frames == [] then [] else Notice(frames[0], closeHook) + Notices(frames[1..], closeHook)
  }

  /** The position of the first read error, or |frames| if there is none. */
  function FirstFailure(frames: seq<Inbound>): (n: nat)
    ensures n <= |frames|
    ensures n < |frames| ==> frames[n].ReadFailed?
    ensures forall j :: 0 <= j < n ==> !frames[j].ReadFailed?
    decreases |frames|
  {
    if frames == [] || frames[0].ReadFailed? then 0 else 1 + FirstFailure(frames[1..])
  }

  /** The payloads of the Text frames, in arrival order. */
  function TextPayloads(frames: seq<Inbound>): seq<seq<byte>>
    decreases |frames|
  {
    if frames == [] then []
    else (if frames[0].Frame? && frames[0].t == TextMessage then [frames[0].data] else [])
         + TextPayloads(frames[1..])
  }

  /** The payloads handed to the message callback, in order. */
  function Received(log: seq<Event>): seq<seq<byte>>
    decreases |log|
  {
    if log == [] then []
    else (if log[0].MessageReceived? then [log[0].msg] else []) + Received(log[1..])
  }

  /** The read pump consumes every item up to and including the first read error and
      stops there; with no error it has consumed everything and is still reading. */
  lemma {:induction false} DispatchStopsAtFirstFailure(frames: seq<Inbound>, closeHook: bool)
    ensures var n := FirstFailure(frames);
            var r := Dispatch(frames, closeHook);
      && r.stopped == (n < |frames|)
      && r.consumed == (if n < |frames| then n + 1 else n)
    decreases |frames|
  {
    if frames != [] && !frames[0].ReadFailed? {
      DispatchStopsAtFirstFailure(frames[1..], closeHook);
    }
  }

  /** The callbacks of the read pump: those of every item before the first read error, in
      order, then that error reported once. */
  lemma {:induction false} DispatchCallbacks(frames: seq<Inbound>, closeHook: bool)
    ensures var n := FirstFailure(frames);
      Dispatch(frames, closeHook).log
        == Notices(frames[..n], closeHook)
           + (if n < |frames| then [ErrorReported(ReadFailure(frames[n].cause))] else [])
    decreases |frames|
  {
    if frames != [] && !frames[0].ReadFailed? {
      var rest := frames[1..];
      DispatchCallbacks(rest, closeHook);
      var n := FirstFailure(rest);
      var head := Notice(frames[0], closeHook);
      var last := if n < |rest| then [ErrorReported(ReadFailure(rest[n].cause))] else [];
      assert Notices(frames[..1 + n], closeHook) == head + Notices(rest[..n], closeHook) by {
        assert frames[..1 + n][1..] == rest[..n];
      }
      assert head + (Notices(rest[..n], closeHook) + last) == (head + Notices(rest[..n], closeHook)) + last;
      if n < |rest| {
        assert frames[1 + n] == rest[n];
      }
    }
  }

  lemma {:induction false} ReceivedAppend(a: seq<Event>, b: seq<Event>)
    ensures Received(a + b) == Received(a) + Received(b)
    decreases |a|
  {
    if a == [] {
      assert a + b == b;
    } else {
      ReceivedAppend(a[1..], b);
      assert (a + b)[1..] == a[1..] + b;
    }
  }

  /** The message callback sees exactly the payloads of the Text frames, in arrival
      order; no other frame reaches it. */
  lemma {:induction false} ReceivedAreTextPayloads(frames: seq<Inbound>, closeHook: bool)
    ensures Received(Notices(frames, closeHook)) == TextPayloads(frames)
    decreases |frames|
  {
    if frames != [] {
      ReceivedAreTextPayloads(frames[1..], closeHook);
      ReceivedAppend(Notice(frames[0], closeHook), Notices(frames[1..], closeHook));
    }
  }

  /** Read pump, message side: up to its stopping point the message callback has been
      called with the Text payloads that arrived before the first read error, in order. */
  lemma ReadPumpDeliversTextInOrder(frames: seq<Inbound>, closeHook: bool)
    ensures Received(Dispatch(frames, closeHook).log) == TextPayloads(frames[..FirstFailure(frames)])
  {
    var n := FirstFailure(frames);
    DispatchCallbacks(frames, closeHook);
    ReceivedAreTextPayloads(frames[..n], closeHook);
    var tail := if n < |frames| then [ErrorReported(ReadFailure(frames[n].cause))] else [];
    ReceivedAppend(Notices(frames[..n], closeHook), tail);
  }

  /** The close callback invocations the close frames call for, with each frame's code
      and text, in arrival order. */
  function CloseFrames(frames: seq<Inbound>): seq<Event>
    decreases |frames|
  {
    if frames == [] then []
    else (if frames[0].CloseArrived? then [CloseHandled(frames[0].code, frames[0].text)] else [])
         + CloseFrames(frames[1..])
  }

  /** The close callback invocations in a record, in order. */
  function Closings(log: seq<Event>): seq<Event>
    decreases |log|
  {
    if log == [] then []
    else (if log[0].CloseHandled? then [log[0]] else []) + Closings(log[1..])
  }

  lemma {:induction false} ClosingsAppend(a: seq<Event>, b: seq<Event>)
    ensures Closings(a + b) == Closings(a) + Closings(b)
    decreases |a|
  {
    if a == [] {
      assert a + b == b;
    } else {
      ClosingsAppend(a[1..], b);
      assert (a + b)[1..] == a[1..] + b;
    }
  }

  /** With a close callback installed it receives the code and text of every close frame,
      in arrival order; without one nothing is handed to a close callback. */
  lemma {:induction false} ClosingsAreCloseFrames(frames: seq<Inbound>, closeHook: bool)
    ensures Closings(Notices(frames, closeHook)) == if closeHook then CloseFrames(frames) else []
    decreases |frames|
  {
    if frames != [] {
      ClosingsAreCloseFrames(frames[1..], closeHook);
      ClosingsAppend(Notice(frames[0], closeHook), Notices(frames[1..], closeHook));
    }
  }

  /** Read pump, close side: up to its stopping point the close callback, if installed,
      has been called with the code and text of the close frames that arrived before the
      first read error, in order. */
  lemma ReadPumpHandsCloseFrames(frames: seq<Inbound>, closeHook: bool)
    ensures Closings(Dispatch(frames, closeHook).log)
            == if closeHook then CloseFrames(frames[..FirstFailure(frames)]) else []
  {
    var n := FirstFailure(frames);
    DispatchCallbacks(frames, closeHook);
    ClosingsAreCloseFrames(frames[..n], closeHook);
    var tail := if n < |frames| then [ErrorReported(ReadFailure(frames[n].cause))] else [];
    ClosingsAppend(Notices(frames[..n], closeHook), tail);
  }
}
