/** The error values the library produces, each with the text it carries in the Go library. */
module Errors {

  datatype Error =
      /** "tried to write to a closed session" (writeMessage, writeRaw) */
    | WriteToClosedSession
      /** "session message buffer is full" (writeMessage) */
    | BufferFull
      /** "session is closed" (Session.Write) */
    | SessionIsClosed
      /** "session is already closed" (Session.Close, Session.CloseWithMsg) */
    | SessionAlreadyClosed
      /** "write message err: <cause>\n" (writeRaw, when the connection refuses a frame) */
    | WriteFailure(cause: string)
      /** the connection's read error, handed on unchanged (readPump) */
    | ReadFailure(cause: string)
      /** the upgrade error, handed on unchanged (HandleRequestWithKeys) */
    | UpgradeFailure(cause: string)
      /** "manager instance is closed" (HandleRequestWithKeys, Broadcast, BroadcastFilter) */
    | ManagerClosed
      /** "manager instance is already closed" (Manager.Close) */
    | ManagerAlreadyClosed
}
