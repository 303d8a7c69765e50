/**
 * Record shapes shared by the Graph Explorer reducers and the history
 * sidebar: the optional value of JavaScript (`undefined`/`null` versus a
 * value), the message-bar kinds and the query status record (`IStatus`).
 */
module Types {

  /** A JavaScript value that may be missing (`undefined` or `null`). */
  datatype Option<+T> = None | Some(value: T)

  /** The two message-bar kinds the history sidebar reports with. */
  datatype MessageBarType = Success | Error

  /** A request or response header. */
  datatype Header = Header(name: string, value: string)

  /**
   * A request or response body as the history keeps it: absent, the empty
   * object that `JSON.parse('{}')` yields, or any other JSON text.
   */
  datatype Body = Undefined | EmptyObject | Json(text: string)

  /** The status record shown in the response message bar (`IStatus`). */
  datatype QueryStatus = QueryStatus(
    ok: bool,
    statusText: string,
    status: int,
    messageType: MessageBarType,
    duration: int)
}
