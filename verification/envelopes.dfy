/** The outbound unit of work handed to a session, and the frame kinds of the connection. */
module Envelopes {

  newtype byte = b: int | 0 <= b < 256

  /** The frame kinds of the websocket connection (TextMessage = 1, BinaryMessage = 2,
      CloseMessage = 8, PingMessage = 9, PongMessage = 10 on the wire). */
  datatype MessageKind = TextMessage | BinaryMessage | CloseMessage | PingMessage | PongMessage

  /** A frame kind and its payload. The optional broadcast filter of the Go envelope
      is not part of this value: nothing ever evaluates it, so Hubs.Hub.Broadcast takes it
      as a separate, ignored argument. */
  datatype Envelope = Envelope(t: MessageKind, msg: seq<byte>)

  /** The envelope Session.Write and the broadcasts enqueue. */
  function TextEnvelope(msg: seq<byte>): Envelope { Envelope(TextMessage, msg) }

  /** The envelope Session.Close, Session.CloseWithMsg and Manager.Close enqueue. */
  function CloseEnvelope(msg: seq<byte>): Envelope { Envelope(CloseMessage, msg) }
}
