# A verified model of a minimal Go RPC library

This project models the core of a small Go RPC library (package `rpc`) in Dafny
and proves properties of that model. The library has three layers:

- **Framing** (`rpc/session.go`). `Session.Write` sends a payload as one frame:
  a 4-byte big-endian `uint32` length, then the payload. `Session.Read` reads
  exactly four header bytes and then exactly the announced number of payload
  bytes, and fails if either read comes up short.
- **Server** (`rpc/server.go`). `Register` maps a name to a procedure, and the
  first registration of a name wins. `Run` accepts connections one at a time.
  On each one it runs a single cycle: read a frame, decode the `RPCData{Name,
  Args}` envelope, look up `Name`, call the procedure with `Args` in order, and
  write a response envelope that echoes `Name` and carries the results in order.
  Any failure ends `Run`.
- **Client** (`rpc/client.go`). `callRPC` binds a declared function variable to a
  remote name. A call of the bound function captures its arguments, writes one
  request frame and reads one response frame on the client's single connection.
  It then maps each nil response slot to the zero value of the declared result
  type at that position. Any encode, I/O or decode failure panics.

Modelling choices:

- A connection is a `Net.Conn` object. `inbound` holds the bytes the peer sends
  before it closes its end. `outbound` holds every byte written so far. On a
  `broken` connection every write fails. `Write` appends a whole buffer or
  nothing. `ReadFull` is `io.ReadFull`: it takes exactly n bytes, or it consumes
  what is left and reports `EOF` (no byte read) or `UnexpectedEOF` (some bytes
  read).
- Bytes are integers in 0..255. The `uint32(len(data))` conversion is written
  out as `ToUint32`, so the frame header wraps for payloads of 2^32 bytes or more.
  `OversizedFrameIsTruncated` states what a reader then sees.
- Values in `[]interface{}` form a closed datatype `Value`. `VUser` is the test's
  `User` record. `VErr` is a non-nil error. `VNil` is a nil interface. Declared
  Go types form `Type`, and `Zero` is `reflect.Zero`.
- A registered procedure is a `Proc`: its parameter types and a Dafny function
  `seq<Value> -> seq<Value>`. `Call` is `reflect.Value.Call`. It panics unless the
  arguments match the parameters in count and type, and a nil argument never
  matches.
- The gob codec is a parameter `Codec(encode, decode)`. No property of gob is
  assumed anywhere. Lemmas that need an envelope to cross the wire intact say so
  in a `requires Transmits(codec, d)`.
- The listener is the finite sequence of connections it will accept. The accept
  error that ends `Run` is the end of that sequence.
- `Run` returns on the first failed cycle instead of going on to the next
  connection (rpc/server.go:56-106), and the model's `Run` stops there too.
- Every call of a client reuses `c.conn` (rpc/client.go:41); no connection is
  opened per call, so successive calls share one inbound and one outbound stream.

## Model

| member | source | states |
|---|---|---|
| `Binary.ToUint32` | rpc/session.go:28 | the `uint32` conversion of a length is below 2^32, is the identity below 2^32, and differs from the length by a multiple of 2^32 |
| `Binary.Uint32` | rpc/session.go:51 | the big-endian value of four header bytes is below 2^32 |
| `Binary.PutUint32` | rpc/session.go:28 | `PutUint32` writes four bytes that `Uint32` reads back as the same value |
| `Binary.PutUint32OfUint32` | rpc/session.go:51 | decoding four bytes and encoding the value again gives the same four bytes |
| `Net.TakeExact` | rpc/session.go:45-57 | `io.ReadFull` of n bytes succeeds exactly when n bytes are available, takes exactly n, and splits the stream into those n bytes and the rest; otherwise it fails with EOF when the stream is empty and UnexpectedEOF when it is not |
| `Net.Conn.Write` | rpc/session.go:32-35 | a write on a working connection appends the whole buffer; on a broken one it reports the error and appends nothing |
| `Net.Conn.ReadFull` | rpc/session.go:45-57 | a full read consumes exactly n bytes; a short read returns its error, no data, and leaves the stream drained |
| `RpcSession.Frame` | rpc/session.go:22-31 | the write buffer has `4 + len(data)` bytes, its header decodes to `uint32(len(data))`, and bytes 4.. equal `data` |
| `RpcSession.ParseFrame` | rpc/session.go:40-59 | reading succeeds exactly when 4 header bytes and then the announced number of payload bytes are present; on success the stream is the frame of the payload followed by the untouched rest, and the payload length is the header value; a short header or payload gives EOF when nothing was read at that step and UnexpectedEOF otherwise |
| `RpcSession.FrameRoundTrip` | rpc/session.go:22-59 | for a payload under 2^32 bytes, empty included, reading the stream that starts with its frame returns exactly the payload and leaves the following bytes unchanged |
| `RpcSession.OversizedFrameIsTruncated` | rpc/session.go:28 | a payload of 2^32 bytes or more reads back as its first `len mod 2^32` bytes, and the rest of the payload stays in the stream |
| `RpcSession.Session.constructor` | rpc/session.go:17-19 | a session wraps the given connection |
| `RpcSession.Session.Write` | rpc/session.go:22-37 | one write appends exactly the frame of `data` to the connection; a failed write returns that error and appends nothing; the inbound stream is untouched (the buffer is filled in place by a proved loop) |
| `RpcSession.Session.Read` | rpc/session.go:40-59 | the read returns what `ParseFrame` gives on the stream before the read and consumes exactly one frame; on failure it returns the error and no data; nothing is written |
| `RpcCodec.Zero` | rpc/client.go:72-75 | the zero value of a concrete type is a value of that type, and the zero value of the `error` interface is nil |
| `RpcServer.Call` | rpc/server.go:83 | the call returns the procedure's results on exactly the arguments given when they match the parameters in count and type, and panics otherwise; a count mismatch gives the count panic |
| `RpcServer.Registered` | rpc/server.go:26-33 | registering adds the name; an already-registered name leaves the map unchanged (first wins); a new name maps to the given procedure; every other entry is kept |
| `RpcServer.Dispatch` | rpc/server.go:69-92 | a request is answered exactly when its name is registered and its arguments fit; the response echoes the request name and holds the procedure's results on the request's arguments, in order; an unknown name gives `NoSuchFunc` |
| `RpcServer.Serve` | rpc/server.go:55-106 | one cycle consumes at most the first inbound frame; a reply happens only if that frame was read, decoded to the request, dispatched to the response, encoded, and the connection accepts writes |
| `RpcServer.UnknownNameIsDropped` | rpc/server.go:70-74 | a well-framed, decodable request for an unregistered name ends the cycle with `NoSuchFunc` and no reply |
| `RpcServer.ReplyAnswersRequest` | rpc/server.go:77-92 | in every reply cycle the registered procedure got the request's arguments with the same count, and the response carries the request's name and the procedure's results |
| `RpcServer.RegisteredNameIsServed` | rpc/server.go:56-106 | a framed request that decodes, names a registered procedure with fitting arguments, and has an encodable response is answered with exactly that response on a working connection |
| `RpcServer.Server.constructor` | rpc/server.go:19-21 | a new server has the given address and an empty function map |
| `RpcServer.Server.Register` | rpc/server.go:26-33 | the function map becomes `Registered(old map, name, f)` |
| `RpcServer.Server.ServeConn` | rpc/server.go:52-106 | one accept-loop iteration returns the cycle `Serve` determines; it appends the reply frame only on success and leaves the inbound stream after the request frame |
| `RpcServer.Server.Run` | rpc/server.go:44-107 | connections are served in order, one cycle each, and the first failing cycle ends the loop with its reason; earlier connections each got exactly one reply frame; the failing one got no write; later ones are untouched; running out of connections is the accept error |
| `RpcClient.Fill` | rpc/client.go:69-78 | the results have as many slots as the response; a nil slot i becomes `Zero(outs[i])`; any other slot is unchanged; it fails exactly at the first nil slot with no declared result type |
| `RpcClient.Collected` | rpc/client.go:69-79 | the call returns exactly when every nil slot has a declared result type; it then returns one value per slot, a nil slot as the zero value of its type and any other slot unchanged; otherwise it panics with the index of the first nil slot beyond the declared results |
| `RpcClient.Request` | rpc/client.go:35-44 | the request envelope has the bound name and the call's arguments, in order |
| `RpcClient.Exchange` | rpc/client.go:33-80 | a call writes one frame of the encoded request, or nothing if encoding or the write fails; it then consumes exactly one inbound frame; it returns values only if that frame was read and decoded and the slots mapped; every other failure panics with no values |
| `RpcClient.Typed` | rpc/client.go:85 | the caller gets the values only when they fit the prototype's result types in count and type; panics pass through |
| `RpcClient.TypedCollected` | rpc/client.go:69-85 | a caller receives values for response slots exactly when there is one slot per declared result and every non-nil slot has its result's type; a nil slot then reads as the zero value of its type; every other case panics |
| `RpcClient.MapResults` | rpc/client.go:69-79 | the result-collecting loop computes `Fill` |
| `RpcClient.FuncVar.constructor` | rpc/rpc_test.go:60 | a declared function variable has its prototype and is not bound |
| `RpcClient.FuncVar.Apply` | rpc/client.go:85-87 | calling an unbound variable panics; calling a bound one runs the stub over its client's connection and type-checks the result |
| `RpcClient.Client.constructor` | rpc/client.go:14-16 | a client keeps the one connection it is given |
| `RpcClient.Client.CallRPC` | rpc/client.go:27-88 | the function variable is bound to this client and the given name |
| `RpcClient.Client.Invoke` | rpc/client.go:33-80 | one call returns the `Exchange` outcome, appends exactly the written frame to the connection and leaves the inbound stream after the response frame |
| `RpcEndToEnd.RemoteCallReturnsLocalResults` | rpc/client.go:41-78 | when both envelopes cross the wire intact, the server reads the client's request frame, answers with the procedure's results under the same name, and the client returns those results after the nil-to-zero mapping, each side consuming the other's frame entirely |
| `RpcEndToEnd.UnknownNameMakesCallPanic` | rpc/server.go:70-74 | a call of an unregistered name makes the server stop without a reply, and once the server's end is closed the client's read panics with EOF |
| `QueryUserExample.DecimalString` | rpc/rpc_test.go:31 | `%d` renders a non-negative number as digits only, with no leading zero for a positive one, and a negative one with a leading minus |
| `QueryUserExample.DigitsReadBack` | rpc/rpc_test.go:31 | the digits `%d` writes for a non-negative number denote that number |
| `QueryUserExample.DecimalStringReadsBack` | rpc/rpc_test.go:31 | reading the `%d` rendering of any integer back as a decimal number gives the integer |
| `QueryUserExample.QueryUser` | rpc/rpc_test.go:20-32 | the result has a user and an error slot; the error is nil exactly for ids in the table, whose user is returned; other ids give the empty user and the error "id N not in user db" with N the id in decimal |
| `QueryUserExample.QueryUserAnswers` | rpc/rpc_test.go:21-31 | id 2 gives `(User{"Jack", 30}, nil)`; id 99 gives `(User{}, "id 99 not in user db")` |
| `QueryUserExample.QueryUserResultsFit` | rpc/rpc_test.go:60-64 | `queryUser`'s results pass the nil-to-zero mapping unchanged and fit `func(int) (User, error)` |
| `QueryUserExample.QueryUserEndToEnd` | rpc/rpc_test.go:42-64 | on a server where `queryUser` is registered, a call through the bound stub returns exactly what `queryUser` returns locally, for every id |
| `QueryUserExample.QueryJack` | rpc/rpc_test.go:64-67 | the test's call `query(2)` yields `(User{"Jack", 30}, nil)` |
| `QueryUserExample.QueryMissing` | rpc/rpc_test.go:27-31 | when the codec can carry the error value, the call `query(99)` yields the empty user and the error "id 99 not in user db" |
| `QueryUserExample.UnencodableResultsGetNoReply` | rpc/server.go:94-98 | when the codec cannot encode `queryUser`'s results, the server consumes the request and stops with the encode error, writing no reply |

## Left out

- The gob wire format (rpc/codec.go:20-47) is not modelled. `encode` and `decode` are parameters, and no round trip is assumed. Lemmas that need one say so in a `Transmits` precondition.
- gob type registration (`gob.Register`, rpc/rpc_test.go:37) is out of the model. An interface value encodes only if its concrete type is registered, and the test registers only `User`. So whether the error value of `query(99)` crosses the wire is up to the codec: `QueryMissing` requires it.
- QueryMissing: with gob as the library sets it up, the reply to `query(99)` is never sent. `fmt.Errorf` without `%w` returns an `*errors.errorString`, which is not registered and has no exported fields, so encoding the response fails at rpc/server.go:95-98. `UnencodableResultsGetNoReply` states that case; `QueryMissing` is only the case of a codec that can carry the error.
- `Run` returns without closing the accepted connection (for example at rpc/server.go:73). A client then blocks in `io.ReadFull` until the server's end is closed some other way, such as a finalizer or the process exiting. The model gives each connection the bytes the peer sends before its end closes, so it shows the EOF the client finally sees but not the wait before it.
- Reads fail only because the stream ends (EOF or UnexpectedEOF). Transport errors that `io.ReadFull` passes through, such as a connection reset, are not represented.
- Reflection is replaced by the closed `Value` and `Type` datatypes. Strings are sequences of characters. Go's 64-bit `int` is an unbounded integer, and variadic procedures are not modelled.
- `RpcServer.Call`: a nil argument and a mistyped argument give the same `BadArgument` panic. Reflection's separate messages, and its check of nil arguments before types, are not distinguished.
- A panic inside `f.Call` would crash the whole Go process. The model records it as the reason `Run` stopped.
- Sockets: `net.Listen` and its error path (rpc/server.go:38-42), `Accept` and `Dial`. Connections are objects given in advance, and the listen address is stored but not used. A real `Accept` blocks when no client comes, while the model's connection sequence simply ends.
- Timing on a live connection is not modelled. The peer's bytes are given up front, so a read sees everything the peer sends before it closes its end.
- A failed `conn.Write` may have sent part of its buffer. The model appends nothing on failure.
- Goroutines, `sync.WaitGroup` and the two test functions' harness code (rpc/session_test.go, rpc/rpc_test.go:35-70) are left out, as is `fmt.Printf` logging.
