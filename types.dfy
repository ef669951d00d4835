/** Records shared by the NearNest client: the rows it reads from and writes
    to the hosted backend, and the shape of a backend answer. */
module Types {

  datatype Option<+T> = None | Some(value: T)

  /** Opaque identifier of an authenticated user (also the profile id). */
  type UserId = string

  /** The part of the backend's auth user the client uses. */
  datatype User = User(id: UserId)

  /** A profile row. Coordinates are whole thousandths of a degree: the
      client only ever stores values already rounded to three decimals. */
  datatype Profile = Profile(id: UserId, handle: string, latRounded: int, lonRounded: int)

  /** A public message row as fetched; `createdAt` is milliseconds since the epoch. */
  datatype Message = Message(id: string, handle: string, body: string, createdAt: int)

  /** A direct-message row as fetched. */
  datatype DMMessage = DMMessage(id: string, senderId: UserId, recipientId: UserId, body: string, createdAt: int)

  /** The answer of a backend select: either an error, or data that may be null. */
  datatype QueryResult<+T> = QueryOk(data: Option<T>) | QueryError(message: string)

  /** The rows a completed list fetch leaves on screen: the rows, none when
      the query failed, and none when it returned null. */
  function FetchedRows<T>(result: QueryResult<seq<T>>): (rows: seq<T>)
    ensures result.QueryError? ==> rows == []
    ensures result.QueryOk? && result.data.Some? ==> rows == result.data.value
    ensures result.QueryOk? && result.data.None? ==> rows == []
  {
    match result
    case QueryError(_) => []
    case QueryOk(data) => if data.Some? then data.value else []
  }
}
