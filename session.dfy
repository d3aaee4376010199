/** Length-prefixed framing (rpc/session.go): a frame is a 4-byte big-endian
    length followed by that many payload bytes. */
module RpcSession {
  import opened Base
  import opened Binary
  import opened Net

  const HeaderSize: nat := 4

  /** The buffer `Session.Write` builds for `data`. The header holds
      `uint32(len(data))`, so a payload of 2^32 bytes or more gets a wrapped length. */
  function Frame(data: seq<byte>): (f: seq<byte>)
    ensures |f| == HeaderSize + |data|
    ensures Uint32(f[..HeaderSize]) == ToUint32(|data|)
    ensures f[HeaderSize..] == data
  {
    assert (PutUint32(ToUint32(|data|)) + data)[..HeaderSize] == PutUint32(ToUint32(|data|));
    PutUint32(ToUint32(|data|)) + data
  }

  /** What `Session.Read` returns from a stream `s`: the payload of the first
      frame and the bytes after it, or the error of the read that came up short. */
  function ParseFrame(s: seq<byte>): (r: Result<Split, IOError>)
    ensures r.Success? <==> HeaderSize <= |s| && Uint32(s[..HeaderSize]) <= |s| - HeaderSize
    ensures r.Success? ==> s == Frame(r.value.taken) + r.value.rest
    ensures r.Success? ==> |r.value.taken| == Uint32(s[..HeaderSize])
    ensures r.Failure? ==> r.error == (if |s| == 0 || |s| == HeaderSize then EOF else UnexpectedEOF)
  {
    match TakeExact(s, HeaderSize)
    case Failure(e) => Failure(e)
    case Success(h) =>
      match TakeExact(h.rest, Uint32(h.taken))
      case Failure(e) => Failure(e)
      case Success(p) =>
        PutUint32OfUint32(h.taken);
        assert Frame(p.taken) == h.taken + p.taken;
        Success(p)
  }

  /** The bytes left after the first frame is read (none, if the read fails). */
  function AfterFrame(inbound: seq<byte>): seq<byte>
  {
    match ParseFrame(inbound)
    case Success(f) => f.rest
    case Failure(_) => []
  }

  /** Round trip: reading a stream that starts with the frame of `data` yields
      `data` and leaves the bytes behind the frame untouched. */
  lemma FrameRoundTrip(data: seq<byte>, rest: seq<byte>)
    requires |data| < Uint32Limit
    ensures ParseFrame(Frame(data) + rest) == Success(Split(data, rest))
  {
    var s := Frame(data) + rest;
    assert s[..HeaderSize] == Frame(data)[..HeaderSize];
    assert s[HeaderSize..] == data + rest;
  }

  /** The wrap-around of the uint32 header: a payload of 2^32 bytes or more is
      read back as its first `len % 2^32` bytes, and the remainder of the payload
      is taken for the following stream. */
  lemma OversizedFrameIsTruncated(data: seq<byte>, rest: seq<byte>)
    requires Uint32Limit <= |data|
    ensures var n := |data| % Uint32Limit;
      ParseFrame(Frame(data) + rest) == Success(Split(data[..n], data[n..] + rest))
  {
    var s := Frame(data) + rest;
    var n := |data| % Uint32Limit;
    assert s[..HeaderSize] == Frame(data)[..HeaderSize];
    assert s[HeaderSize..] == data + rest;
    assert (data + rest)[..n] == data[..n];
    assert (data + rest)[n..] == data[n..] + rest;
  }

  /** A session over one connection (`Session{conn}`). */
  class Session {
    const conn: Conn

    constructor (conn: Conn)
      ensures this.conn == conn
    {
      this.conn := conn;
    }

    /** `Session.Write`: build header and payload in one buffer and send it with
        a single write; a failing write is reported and leaves the stream as it was. */
    method Write(data: seq<byte>) returns (err: Option<IOError>)
      modifies conn
      ensures conn.inbound == old(conn.inbound)
      ensures err == (if conn.broken then Some(WriteFailed) else None)
      ensures conn.outbound == if err.None? then old(conn.outbound) + Frame(data) else old(conn.outbound)
    {
      var buf := new byte[HeaderSize + |data|];
      var header := PutUint32(ToUint32(|data|));
      buf[0], buf[1], buf[2], buf[3] := header[0], header[1], header[2], header[3];
      var i := 0;
      while i < |data|
        modifies buf
        invariant 0 <= i <= |data|
        invariant buf[..HeaderSize] == header
        invariant buf[HeaderSize..HeaderSize + i] == data[..i]
      {
        buf[HeaderSize + i] := data[i];
        i := i + 1;
      }
      assert buf[..] == buf[..HeaderSize] + buf[HeaderSize..HeaderSize + |data|];
      err := conn.Write(buf[..]);
    }

    /** `Session.Read`: exactly four header bytes, then exactly the announced
        number of payload bytes; a short read returns its error and no data. */
    method Read() returns (r: Result<seq<byte>, IOError>)
      modifies conn
      ensures conn.outbound == old(conn.outbound)
      ensures match ParseFrame(old(conn.inbound))
        case Success(f) => r == Success(f.taken) && conn.inbound == f.rest
        case Failure(e) => r == Failure(e) && conn.inbound == []
    {
      var header := conn.ReadFull(HeaderSize);
      if header.Failure? {
        return Failure(header.error);
      }
      var dataLen := Uint32(header.value);
      var data := conn.ReadFull(dataLen);
      if data.Failure? {
        return Failure(data.error);
      }
      return Success(data.value);
    }
  }
}
