/** The error taxonomy of the Wayland server socket and the wrappers used to return it. */
module Errors {

  /** The variants of `SocketError`; each `io::Error` payload is carried only as its text, in `Message`. */
  datatype SocketError =
    | NoAvailableSocket
    | RuntimeDirInvalid
    | LockOpen
    | LockAcquire
    | Bind
    | Accept

  /** The variants that wrap an `io::Error` as their source. */
  predicate HasSource(e: SocketError) {
    e.LockOpen? || e.LockAcquire? || e.Bind? || e.Accept?
  }

  /** The fixed text of each variant's `#[error]` message, before the `: {0}` of its source. */
  function Headline(e: SocketError): string {
    match e
    case NoAvailableSocket => "no available socket candidates"
    case RuntimeDirInvalid => "XDG_RUNTIME_DIR not set or invalid"
    case LockOpen => "could not open or create lock file"
    case LockAcquire => "could not acquire file lock"
    case Bind => "could not bind to socket"
    case Accept => "could not accept incoming connection"
  }

  /**
   * The `Display` text `thiserror` derives for `e`, where `cause` is the text
   * of the wrapped `io::Error` (ignored by the two variants without one).
   */
  function Message(e: SocketError, cause: string): (r: string)
    ensures Headline(e) <= r
    ensures HasSource(e) ==> r[|Headline(e)|..] == ": " + cause
    ensures !HasSource(e) ==> |r| == |Headline(e)|
  {
    if HasSource(e) then Headline(e) + ": " + cause else Headline(e)
  }

  /** Three characters of each headline that tell the variants apart. */
  function Key(e: SocketError): (char, char, char) {
    match e
    case NoAvailableSocket => ('n', 'l', ' ')
    case RuntimeDirInvalid => ('X', 'E', 'D')
    case LockOpen => ('c', 'o', 'e')
    case LockAcquire => ('c', 'a', 'q')
    case Bind => ('c', 'b', 'n')
    case Accept => ('c', 'a', 'c')
  }

  /** The headline of `e` has the characters `Key(e)` at positions 0, 10 and 12. */
  lemma HeadlineKey(e: SocketError)
    ensures |Headline(e)| > 12
    ensures (Headline(e)[0], Headline(e)[10], Headline(e)[12]) == Key(e)
  {
    match e
    case NoAvailableSocket =>
    case RuntimeDirInvalid =>
    case LockOpen =>
    case LockAcquire =>
    case Bind =>
    case Accept =>
  }

  /** Different variants give different messages, whatever their `io::Error` sources say. */
  lemma MessagesDistinct(a: SocketError, b: SocketError, ca: string, cb: string)
    requires a != b
    ensures Message(a, ca) != Message(b, cb)
  {
    HeadlineKey(a);
    HeadlineKey(b);
    var m, n := Message(a, ca), Message(b, cb);
    assert (m[0], m[10], m[12]) == Key(a);
    assert (n[0], n[10], n[12]) == Key(b);
  }

  /** `Result<T, SocketError>` */
  datatype Result<+T> = Ok(value: T) | Err(error: SocketError)
}
