/** The byte-stream connection that `net.Conn` provides, reduced to what the
    library uses: `Write` of a whole buffer and `io.ReadFull` of n bytes. */
module Net {
  import opened Base

  /** Errors the transport reports. `EOF` and `UnexpectedEOF` are the two that
      `io.ReadFull` returns: no byte at all, or some but not enough. */
  datatype IOError = EOF | UnexpectedEOF | WriteFailed

  /** A stream split at a point: the bytes taken and the bytes after them. */
  datatype Split = Split(taken: seq<byte>, rest: seq<byte>)

  /** What `io.ReadFull(conn, buf)` with `len(buf) == n` does to a stream that
      will deliver exactly `s` before it closes. */
  function TakeExact(s: seq<byte>, n: nat): (r: Result<Split, IOError>)
    ensures r.Success? <==> n <= |s|
    ensures r.Success? ==> |r.value.taken| == n && s == r.value.taken + r.value.rest
    ensures r.Failure? ==> r.error == (if |s| == 0 then EOF else UnexpectedEOF)
  {
    if n <= |s| then Success(Split(s[..n], s[n..]))
    else Failure(if |s| == 0 then EOF else UnexpectedEOF)
  }

  /** One end of a connection. `inbound` is what the peer sends and this end has
      not read yet; `outbound` is everything this end has written; on a `broken`
      connection (reset, or closed by the peer) every write fails. */
  class Conn {
    var inbound: seq<byte>
    var outbound: seq<byte>
    const broken: bool

    constructor (inbound: seq<byte>, broken: bool)
      ensures this.inbound == inbound && this.broken == broken && outbound == []
    {
      this.inbound := inbound;
      this.broken := broken;
      outbound := [];
    }

    /** `conn.Write(buf)`: the whole buffer goes out, or nothing and an error. */
    method Write(buf: seq<byte>) returns (err: Option<IOError>)
      modifies this
      ensures inbound == old(inbound)
      ensures err == (if broken then Some(WriteFailed) else None)
      ensures outbound == if broken then old(outbound) else old(outbound) + buf
    {
      if broken {
        err := Some(WriteFailed);
      } else {
        outbound := outbound + buf;
        err := None;
      }
    }

    /** `io.ReadFull(conn, buf)` with `len(buf) == n`: exactly `n` bytes, or an
        error after everything the peer sent has been consumed. */
    method ReadFull(n: nat) returns (r: Result<seq<byte>, IOError>)
      modifies this
      ensures outbound == old(outbound)
      ensures match TakeExact(old(inbound), n)
        case Success(split) => r == Success(split.taken) && inbound == split.rest
        case Failure(e) => r == Failure(e) && inbound == []
    {
      if n <= |inbound| {
        r := Success(inbound[..n]);
        inbound := inbound[n..];
      } else {
        r := Failure(if |inbound| == 0 then EOF else UnexpectedEOF);
        inbound := [];
      }
    }
  }
}
