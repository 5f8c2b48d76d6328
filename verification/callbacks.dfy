/** The manager's callback table and the record of callback invocations. */
module Callbacks {
  import opened Wrappers
  import opened Envelopes
  import opened Errors

  /** A callback installed in one of the manager's slots. Bodies are user code and are not
      modelled; a callback is known by an identifier only. */
  datatype Callback = NoOp | UserCallback(id: nat)

  /** One invocation of a callback, with its arguments other than the session (every
      callback of wsocket receives the session it concerns as its first argument, so each
      session keeps the invocations that concern it, in order). */
  datatype Event =
    | Connected                              // connectHandler(s)
    | Disconnected                           // disconnectHandler(s)
    | Ponged                                 // pongHandler(s)
    | MessageReceived(msg: seq<byte>)        // messageHandler(s, msg)
    | MessageSent(msg: seq<byte>)            // messageSentHandler(s, msg)
    | ErrorReported(err: Error)              // errorHandler(s, err)
    | CloseHandled(code: int, text: string)  // closeHandler(s, code, text)

  /** The seven callback slots of a manager. Sessions hold a reference to the table of the
      manager that created them, as wsocket's sessions hold a reference to that manager. */
  class Handlers {
    var messageHandler: Callback
    var messageSentHandler: Callback
    var errorHandler: Callback
    var closeHandler: Option<Callback>   // None: no custom close handshake (nil in the Go library)
    var connectHandler: Callback
    var disconnectHandler: Callback
    var pongHandler: Callback

    /** Every slot a no-op, except the close handler, which is unset. */
    constructor ()
      ensures messageHandler == NoOp && messageSentHandler == NoOp && errorHandler == NoOp
      ensures connectHandler == NoOp && disconnectHandler == NoOp && pongHandler == NoOp
      ensures closeHandler == None
    {
      messageHandler := NoOp;
      messageSentHandler := NoOp;
      errorHandler := NoOp;
      closeHandler := None;
      connectHandler := NoOp;
      disconnectHandler := NoOp;
      pongHandler := NoOp;
    }
  }
}
