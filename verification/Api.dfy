/** The resource types shared by both controllers, reduced to the fields they read or write. */
module Api {

  datatype Option<+T> = None | Some(value: T)

  const STATE_ERROR := "Error"
  const STATE_INVALID := "Invalid"
  const STATE_PENDING := "Pending"
  const STATE_UNREACHABLE := "Unreachable"
  const STATE_HEALTHY := "Healthy"
  const STATE_ACTIVE := "Active"
  const STATE_INACTIVE := "Inactive"

  /** Instants and durations count nanoseconds, as Go's `time.Duration` does. */
  const SECOND: int := 1_000_000_000

  datatype ActiveEntry = ActiveEntry(endpoint: string, ipAddress: string, cname: string)

  datatype LbStatus = LbStatus(state: Option<string>, message: Option<string>, active: Option<seq<ActiveEntry>>)

  datatype EndpointStatus =
    EndpointStatus(state: Option<string>, message: Option<string>, healthy: bool, validUntil: Option<int>)

  /** An object as the API server or a cache holds it. Every write makes a new version, and an update is
      refused unless it is based on the version that is stored. */
  datatype Versioned<T> = Versioned(status: T, version: nat)

  /** The part of an endpoint object that a DNS round reads but never changes. */
  datatype EndpointRef = EndpointRef(name: string, ipAddress: string, cname: string)

  /** An empty message is stored as an absent one. */
  function MessageOf(msg: string): Option<string> {
    if msg == "" then None else Some(msg)
  }

  /** What `UpdateState` makes of an endpoint status; the deadline is not its business. */
  function WithState(s: EndpointStatus, state: string, msg: string, healthy: Option<bool>): EndpointStatus {
    EndpointStatus(Some(state), MessageOf(msg), if healthy.Some? then healthy.value else s.healthy, s.validUntil)
  }
}
