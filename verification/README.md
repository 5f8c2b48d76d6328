# wsocket hub, modelled in Dafny

A model of the core of wsocket, a small Go library that serves websocket
connections through one hub per manager. It covers four parts of the library:

- A **session**: one connection with
  - a bounded outbound queue that never blocks the producer;
  - an `open` flag;
  - a metadata map;
  - two loops: the write pump that drains the queue onto the connection, and the read
    pump that turns inbound frames into callbacks.
- The **hub**: the set of registered sessions and an open flag, changed by the
  register, unregister, broadcast and exit events of its control loop.
- The **manager**: configuration, the seven user callbacks and the hub, and the public
  operations built on them.
- The **configuration** defaults.

Modules, one file each:

| module | file | contents |
|---|---|---|
| `Wrappers` | `wrappers.dfy` | `Option` and `Repeat` |
| `Envelopes` | `envelopes.dfy` | frame kinds and the envelope |
| `Errors` | `errors.dfy` | every error value the library produces |
| `Configuration` | `configuration.dfy` | `Config` and `NewConfig` |
| `Callbacks` | `callbacks.dfy` | the callback table (a class) and the record of callback invocations |
| `Outbox` | `outbox.dfy` | the non-blocking enqueue as a function on what a producer can see of a session |
| `Pumps` | `pumps.dfy` | the write pump and the read pump as functions of what the connection answers |
| `Sessions` | `sessions.dfy` | class `Session` |
| `Hubs` | `hubs.dfy` | class `Hub` and the membership function of its event loop |
| `Managers` | `managers.dfy` | class `Manager` |

The state-changing parts are classes whose methods update fields in place:
- `Session` holds `keys`, `output`, `open`, `log`, and one stopped flag per pump. Each
  method names the fields it may change, so only a pump changes its own flag.
- `Hub` holds `sessions` and `open`.
- `Handlers` is the manager's callback slots.

Each method is proved against a specification function:
- `Offer` and `Evicted` for one enqueue;
- `Drain` for the write pump;
- `Dispatch` for the read pump;
- `Members` and `ViewAfter` for the control loop;
- `Written` and `OpenPrefix` for `BroadcastMultiple`.

The lemmas next to each function state what the library promises:
- FIFO order and backpressure on the queue;
- at most one Close frame written;
- why a pump stopped;
- the callbacks invoked, in order;
- exit being terminal.

Callbacks are user code. Each session therefore records the callbacks invoked for it, in
order, as `Event`s. Every callback of the library takes the session as its first
argument, so that sequence is per session.

The model follows the code as written on three points where a reader might expect otherwise:
- The hub never evaluates a broadcast filter (the test is commented out). So
  `BroadcastFilter` and `BroadcastOthers` reach every registered session, including the
  session `BroadcastOthers` names.
- Nothing sends on the hub's unregister channel or calls `Session.close`. A session
  therefore stays registered and open after its connection ends.
- `Session.Close` enqueues a Close envelope but leaves the `open` flag as it is.

## Model

| member | source | states |
|---|---|---|
| `Configuration.NewConfig` | config.go:13-21 | The defaults are 10 s write wait, 60 s pong wait, 54 s ping period, a 512-byte read limit and a 256-envelope queue. The ping period is positive and shorter than the pong wait. |
| `Managers.DefaultSessionAcceptsFirstEnvelope` | config.go:19 | With the default buffer size, a fresh session queues the first envelope it is offered instead of dropping it. |
| `Callbacks.Handlers.constructor` | manager.go:43-49 | Six slots start as no-ops. The close slot starts unset. |
| `Outbox.Offer` | session.go:27-39 | The enqueue never blocks and never reorders. A closed session keeps its queue and reports one "tried to write to a closed session". A full queue drops the envelope and reports one "buffer full". Otherwise the envelope goes to the back. The capacity bound is kept. |
| `Outbox.OfferAllOpen` | session.go:33-38 | Offering a run of envelopes to an open session queues the ones that fit, in order, behind what was pending. Each one that does not fit is dropped with exactly one "buffer full" report. |
| `Outbox.OfferAllClosed` | session.go:28-31 | Offering a run of envelopes to a closed session leaves the queue unchanged. It reports one closed-session error per envelope. |
| `Outbox.OfferTimesIsOfferAll` | session.go:27-39 | Offering one envelope n times is offering the run of its n copies. |
| `Sessions.Session.constructor` | manager.go:98-106 | A new session is open, has an empty queue and no callbacks yet, and neither pump has stopped. It keeps the given keys, capacity and callback table. |
| `Sessions.Session.IsClosed` | session.go:53-57 | `closed()` is true exactly when the open flag is cleared. |
| `Sessions.Session.WriteMessage` | session.go:27-39 | The session's view moves exactly as `Outbox.Offer` says. The keys are untouched. |
| `Sessions.Session.WriteRaw` | session.go:41-51 | A closed session fails before the connection is touched. Otherwise the result is nil exactly when the connection accepts the frame, and a refusal is wrapped with its cause. |
| `Sessions.Session.CloseOutput` | session.go:59-67 | `close()` leaves the session closed. Its queue, callbacks and keys are unchanged, so a second call changes nothing. |
| `Sessions.Session.WritePump` | session.go:73-98 | The pump's frames, stop reason, remaining queue and callbacks are those of `Pumps.Drain` from the starting queue. Everything it did not take stays queued, and the open flag and keys are unchanged. The pump runs only while it has not stopped. It is marked stopped exactly when the run ends other than waiting for more, so it never runs again after writing a Close, after a failed write or after the queue closed. |
| `Pumps.Drain` | session.go:73-98 | The pump takes at most the whole queue, and at least one envelope when any is pending. It reports the queue closed exactly when the session is closed and nothing is pending. On a closed session nothing reaches the connection and at most one envelope is taken. |
| `Pumps.Resume` | session.go:76-97 | Resuming the pump partway through a run never takes back what was taken and takes at most the rest of the queue. |
| `Pumps.ResumeIsDrain` | session.go:76-97 | Resuming from an accumulated state equals running the pump from scratch with that state in front. |
| `Pumps.DrainTakesFromFront` | session.go:79-83 | On an open session the pump hands the connection exactly the front of the queue, in order. |
| `Pumps.DrainPassesOnlyDelivered` | session.go:83-90 | The pump only goes past an envelope that was written successfully and was not a Close. |
| `Pumps.DrainWaitsOnlyAfterCleanRun` | session.go:79-97 | The pump is left waiting exactly when the session is open and every queued envelope was written and none was a Close. |
| `Pumps.DrainStopReason` | session.go:83-89 | On an open session, a stop after a Close means the last envelope taken was that Close and it was written. A stop on failure means the last write failed, and the error carries the connection's cause. |
| `Pumps.AtMostOneCloseWritten` | session.go:79-97 | A run of the pump writes a Close frame only as its last frame, and a run that leaves the pump waiting wrote none. Since only a waiting pump runs again, at most one Close frame is written over a session's life. |
| `Pumps.DrainCallbacks` | session.go:83-93 | The callbacks of a run are the message-sent callback for each Text envelope that reached the peer, in queue order, then one error report if a write failed. |
| `Pumps.Notice` | session.go:105-125 | The frame switch for one item that is not a read error: a Text frame reaches the message callback, a pong reaches the pong hook, and a close frame reaches the close hook only when one is installed. Frames of other kinds, and a close frame without a hook, invoke nothing. The message callback gets the frame's payload, and the close callback gets the peer's code and text. |
| `Pumps.Dispatch` | session.go:117-126 | The read pump consumes at most the items it is given. |
| `Pumps.Listen` | session.go:117-126 | Resuming the read pump partway through never gives back consumed items and consumes at most the rest. |
| `Pumps.ListenIsDispatch` | session.go:117-126 | Resuming from an accumulated count and record equals running the read pump from scratch with that count and record in front. |
| `Sessions.Session.ReadPump` | session.go:100-127 | The callbacks the read pump invokes, and whether it stopped, are those of `Pumps.Dispatch` over the inbound items. Queue, open flag and keys are untouched. The pump runs only while it has not stopped, and is marked stopped exactly when it returns after a read error. |
| `Pumps.DispatchStopsAtFirstFailure` | session.go:117-122 | The read pump consumes everything up to and including the first read error and stops there. With no error it has consumed everything and keeps reading. |
| `Pumps.DispatchCallbacks` | session.go:105-126 | The read pump's callbacks are those of each item before the first read error, in order, then that error reported once. |
| `Pumps.ReceivedAreTextPayloads` | session.go:123-125 | The message callback receives exactly the Text payloads, in arrival order. No other frame kind reaches it. |
| `Pumps.ClosingsAreCloseFrames` | session.go:111-115 | With a close callback installed, it receives the code and text of every close frame, in arrival order. Without one, no close callback is invoked. |
| `Pumps.ReadPumpHandsCloseFrames` | session.go:111-126 | Up to its stop, the read pump has handed the close callback, if installed, the code and text of the close frames that arrived before the first read error, in order. |
| `Pumps.ReadPumpDeliversTextInOrder` | session.go:117-126 | Up to its stop, the read pump has handed the message callback the Text payloads that arrived before the first read error, in order. |
| `Sessions.Session.Notify` | manager.go:114 | Invoking a manager callback on a session appends exactly that invocation to the session's record. Nothing else changes. |
| `Sessions.Session.Write` | session.go:131-137 | The result is an error exactly when the session is closed, and then nothing changes. Otherwise a Text envelope is offered and nil is returned even if the offer was dropped. |
| `Sessions.Session.Close` | session.go:139-145 | A closed session returns "already closed" and nothing changes. Otherwise one Close envelope with an empty payload is offered. The open flag is unchanged either way. |
| `Sessions.Session.CloseWithMsg` | session.go:147-153 | Same as `Close`, with the given payload in the Close envelope. |
| `Sessions.Session.Set` | session.go:155-160 | A nil map is created first. Afterwards the key maps to the value, every other key reads as before, and the key set gains exactly that key. |
| `Sessions.Session.Get` | session.go:162-167 | A value is found exactly when the map exists and holds the key, and it is the map's value. |
| `Sessions.Session.MustGet` | session.go:169-174 | For a present key, the result is what `Get` finds. |
| `Hubs.Hub.constructor` | hub.go:15-25 | A new hub is open and has no sessions. |
| `Hubs.Hub.Register` | hub.go:31-34 | Adds exactly the session. Registering it again changes nothing. |
| `Hubs.Hub.Unregister` | hub.go:35-40 | Removes exactly the session if it is a member, and changes nothing otherwise. |
| `Hubs.Hub.Broadcast` | hub.go:41-50 | Every member is offered the same envelope once, as `Outbox.Offer` says, whatever the filter. |
| `Hubs.Evicted` | hub.go:53-56 | The exit sweep on one member never changes its open flag and adds at most two envelopes. An open member with room gets the exit envelope and then a Close envelope. A closed member only gets a closed-session report. |
| `Hubs.Evict` | hub.go:53-56 | The sweep's `writeMessage` followed by `Session.Close` moves a member's view as `Hubs.Evicted` says. |
| `Hubs.Hub.Exit` | hub.go:51-60 | Every former member is swept as `Hubs.Evicted` says. The hub ends closed and empty. |
| `Hubs.Hub.Closed` | hub.go:65-69 | `closed()` is true exactly when exit has run, and a closed hub has no members. |
| `Hubs.Hub.Len` | hub.go:71-75 | `len()` is the number of members, and 0 once the hub is closed. |
| `Hubs.Members` | hub.go:27-63 | Every member after the events was a member before or was registered by one of them. |
| `Hubs.MemberAfterEvent` | hub.go:30-61 | A register makes the session it names a member. An unregister makes that session a non-member. |
| `Hubs.ViewAfterEvent` | hub.go:41-58 | One event never changes a session's open flag and never takes from its queue. A session that is not a member is left exactly as it was. |
| `Hubs.ViewAfter` | hub.go:27-63 | What the events do to one session: its open flag is never changed and nothing is removed from its queue. |
| `Hubs.Hub.Handle` | hub.go:30-61 | One pass of the select. A register adds the session, an unregister removes it, a broadcast keeps the membership, and an exit empties it and ends the loop. Every session moves as `Hubs.ViewAfterEvent` says, and the step agrees with `Hubs.Members` and `Hubs.ViewAfter`. |
| `Hubs.Hub.Run` | hub.go:27-63 | The control loop handles events in order and stops right after the first exit. The membership it leaves is `Hubs.Members` of the events. Every session that was a member or is registered ends as `Hubs.ViewAfter` says. |
| `Hubs.BroadcastMessages` | hub.go:41-50 | The envelopes of the broadcast events, in order, at most one per event. |
| `Hubs.BroadcastsReachMember` | hub.go:41-50 | Over a run of broadcasts, a member is offered every broadcast envelope once, in order. |
| `Hubs.BroadcastsQueueInOrder` | hub.go:41-50 | An open member with room for a run of broadcasts ends with exactly those envelopes queued behind what was pending, in order. |
| `Outbox.OfferAllFront` | session.go:27-39 | Offering a run that starts with one envelope is offering that envelope and then the rest. |
| `Hubs.ExitEmptiesMembership` | hub.go:51-60 | Exit is terminal: once an exit event occurs, the hub ends with no members whatever came before. |
| `Hubs.RegistrantsTail` | hub.go:31-34 | Dropping the first event never adds a registrant, and a leading register names a registrant. |
| `Hubs.UnnamedSessionKeepsMembership` | hub.go:27-63 | Without an exit, a session that no register or unregister names keeps its membership. |
| `Managers.Manager.constructor` | manager.go:30-52 | `New` gives the default configuration, an open hub with no sessions, no-op callbacks and no close callback. |
| `Managers.Manager.HandleConnect` | manager.go:54-56 | The connect slot is overwritten. |
| `Managers.Manager.HandleDisconnect` | manager.go:58-60 | The disconnect slot is overwritten. |
| `Managers.Manager.HandlePong` | manager.go:62-64 | The pong slot is overwritten. |
| `Managers.Manager.HandleMessage` | manager.go:66-68 | The message slot is overwritten. |
| `Managers.Manager.HandleSentMessage` | manager.go:70-72 | The message-sent slot is overwritten. |
| `Managers.Manager.HandleError` | manager.go:74-76 | The error slot is overwritten. |
| `Managers.Manager.HandleClose` | manager.go:78-82 | A nil callback leaves the close slot as it was. Otherwise it is overwritten. |
| `Managers.Manager.HandleRequestWithKeys` | manager.go:88-116 | A closed manager refuses before upgrading and registers nothing. A failed upgrade returns the upgrade error and registers nothing. Otherwise a fresh, open, empty session gets the given keys and the configured capacity and is the one session added to the hub. Its record is connect, then the read pump's callbacks, then disconnect. Its read pump has stopped on the read error and its write pump has not stopped, so the write pump can run on it. The buffer-size and read-error preconditions apply only to an accepted connection. |
| `Managers.Manager.Serve` | manager.go:98-115 | The accepted connection: the new session is registered, announced to the connect callback, read until the connection fails, and announced to the disconnect callback. The read pump ends stopped and the write pump is left ready to run. |
| `Managers.Manager.Announce` | manager.go:107-108 | The connect callback is invoked only on a session already registered with the hub, and records exactly that invocation. |
| `Managers.Manager.HandleRequest` | manager.go:84-86 | Everything `HandleRequestWithKeys` promises, with a nil map: refusals on a closed manager and on a failed upgrade, and otherwise one fresh registered session with no keys whose record is connect, the read pump's callbacks, then disconnect, with its read pump stopped and its write pump ready to run. |
| `Managers.Manager.Broadcast` | manager.go:118-125 | Fails exactly when the manager is closed. Otherwise every registered session is offered one Text envelope with the payload. |
| `Managers.Manager.BroadcastFilter` | manager.go:127-134 | Same as `Broadcast`: the filter is never applied. |
| `Managers.Manager.BroadcastOthers` | manager.go:136-141 | Same as `Broadcast`. The session to skip is offered the envelope too, since the filter is never applied. |
| `Managers.OpenPrefix` | manager.go:145-149 | The leading run of listed sessions that are open. The session just past it, if any, is closed. |
| `Managers.Written` | manager.go:144-151 | Writing to a prefix of the list never loses a session's view. |
| `Managers.WrittenIsOfferTimes` | manager.go:145-148 | Each session ends up offered the envelope once per time it is listed in the prefix written. |
| `Managers.WriteListed` | manager.go:146 | `Session.Write` on one listed session: only that session's view moves. It fails exactly when that session is closed. |
| `Managers.Manager.BroadcastMultiple` | manager.go:143-151 | Writes to the listed sessions in order and stops at the first closed one, returning its error. The result is nil exactly when all are open. Every listed session ends as `Managers.Written` says for the sessions before the stop. |
| `Managers.Manager.Close` | manager.go:153-159 | Fails exactly when the manager is already closed. Otherwise every member is swept as `Hubs.Evicted` says with an empty-payload Close envelope. Either way the hub ends closed and empty. |
| `Managers.Manager.IsClosed` | manager.go:161-163 | True exactly when the hub is closed, and then `Len` is 0. |
| `Managers.Manager.Len` | manager.go:165-168 | The number of registered sessions. |

## Left out

- The HTTP upgrade and the connection object are foreign I/O.
  - The upgrader's answer is a parameter of `HandleRequestWithKeys`.
  - Each frame write's answer is an element of the `results` sequence given to the write pump.
  - Everything a read returns is an element of the `frames` sequence given to the read pump.
  - The `Request` field, the origin check and the upgrader's buffer sizes are not modelled.
- The ping ticker, `ping()`, the write deadline, the read deadline, the read limit and
  the pong handler's deadline reset depend on time and are not modelled.
  - The pong handler resets the deadline to the same fixed instant, not to a later one.
  - The configuration only records these durations.
- Concurrency is not modelled.
  - The hub's loop and the pumps run as goroutines in the library. Here each event, enqueue and pump run is one call.
  - Locks, channel hand-offs and interleavings are not modelled.
  - So is the blocking of a send on the hub's channels after exit. Every hub event therefore requires an open hub.
  - `HandleRequestWithKeys` does not run the write pump itself. It returns the accepted session with its write pump not yet stopped, so `Session.WritePump` can be run on it, once or while it keeps waiting.
- `Sessions.Session.ReadPump` takes what the connection yields as a list of items.
  - A close frame runs the close hook, if one was installed.
  - After a close frame the connection returns a read error at once. The model accepts any items after a close frame, although the library never yields them.
- `Managers.Manager.HandleRequestWithKeys` requires such a read error among the items when the connection is accepted.
  - Without one, the read pump never returns and the disconnect callback is never reached.
- `Managers.Manager.HandleRequestWithKeys` requires a non-negative buffer size when the connection is accepted. Making a channel with a negative size panics.
- `Sessions.Session.Set` does not model Go's sharing of a map by reference.
  - In the library the keys map given to `HandleRequestWithKeys` is the caller's own map, and several sessions may hold the same one.
  - The model gives each session its own copy, so a `Set` on one holder is not seen through the others.
- `Outbox.Offer` treats a buffer size of 0 as a queue with no room, so every envelope is dropped with "buffer full".
  - In Go, `make(chan, 0)` is an unbuffered channel: a send succeeds when the write pump is waiting to receive at that moment.
  - That hand-off depends on timing between goroutines, which is not modelled.
- `Sessions.Session.WritePump` works on local copies of the queue and of the new callbacks. It stores them back when it stops.
  - A channel receive takes one element at a time.
  - The final state is the same, since nothing else runs in between.
- Callback bodies are user code.
  - A callback is known only by an identifier.
  - An invocation records its arguments, not which callback value ran.
  - The close callback's return value is not modelled.
- Values stored in session keys are of a type parameter `V`, not Go's `interface{}`.
- `MustGet`'s panic on a missing key is its precondition.
- A nil callback given to the six unguarded setters is not representable. Each takes a `Callback`, which is never nil.
- A nil `*Session` is not representable.
  - `BroadcastOthers(msg, nil)` behaves like `Broadcast`, since the filter is never evaluated. The model's `BroadcastOthers` does the same for any session.
  - A nil entry in `BroadcastMultiple`'s list panics inside `Session.Write`. The model's list holds only sessions.

