/** What a connection and its protocol handler share: the read buffer, and what a call answers. */
module ProtocolHandlers {
  /** Whether to call again, wait for more bytes, end the connection or hand it to an event stream. */
  datatype ProcessResult = Continue | NeedMore | Close | UpgradeSse

  /** The connection's read buffer, shared with the handler that parses it. */
  class ReadBuffer {
    var bytes: string

    constructor ()
      ensures bytes == ""
    {
      bytes := "";
    }

    method Append(data: string)
      modifies this
      ensures bytes == old(bytes) + data
    {
      bytes := bytes + data;
    }

    /** Takes the first `n` bytes out of the buffer. */
    method Take(n: nat) returns (taken: string)
      requires n <= |bytes|
      modifies this
      ensures taken == old(bytes)[..n] && bytes == old(bytes)[n..]
    {
      taken := bytes[..n];
      bytes := bytes[n..];
    }
  }
}
