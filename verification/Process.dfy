/** What the two lists of a process share: what may become of it, and what it sends. */
module Process {
  import opened Bytes

  /** sizeof(snb.s) */
  const SNB_MAX := 256

  /** Aborted is abort(); Strayed, the use of memory that was freed or is not the buffer's. */
  datatype Fate = Running | Aborted | Strayed

  function Worse(a: Fate, b: Fate): Fate { if a.Running? then b else a }

  /** A MESSAGE_TO for the upstream. */
  datatype Parcel = Parcel(to: bytes, address: bytes, tp: bytes, body: bytes)

  /** What socket() and connect() returned, and errno afterwards, which a call that succeeds leaves as it was. */
  datatype Attempt = Attempt(socket: int, ret: int, errno: int)

  /** errno values of Linux; EWOULDBLOCK is EAGAIN there. */
  const EINTR := 4
  const EAGAIN := 11
  const ECONNREFUSED := 111
  const EINPROGRESS := 115

  /** Stays: the watchers stay on. Dropped: the client is shut down on the spot. */
  datatype Outcome = Stays | NoSocket | Dropped
}
