/** The server side (rpc/server.go): a registry of named procedures and the
    accept loop that serves one request per connection. */
module RpcServer {
  import opened Base
  import opened Binary
  import opened Net
  import opened RpcSession
  import opened RpcCodec

  /** A registered procedure: its parameter types and what it computes. The
      body is only applied to arguments that fit the parameters. */
  datatype Proc = Proc(params: seq<Type>, body: seq<Value> -> seq<Value>)

  /** The two ways `reflect.Value.Call` panics on its arguments. */
  datatype CallError = WrongArgCount | BadArgument

  /** Why `Run` returned. Every one of them ends the server. */
  datatype StopReason =
    | AcceptErr
    | ReadErr(io: IOError)
    | DecodeErr(codec: CodecError)
    | NoSuchFunc(name: string)
    | CallPanic(call: CallError)
    | EncodeErr(codec: CodecError)
    | WriteErr(io: IOError)

  predicate Fits(args: seq<Value>, params: seq<Type>)
  {
    |args| == |params| && forall i :: 0 <= i < |args| ==> AssignableTo(args[i], params[i])
  }

  /** `f.Call(in)`: the procedure's results for positional arguments, or the
      panic reflection raises when count or types do not match. */
  function Call(p: Proc, args: seq<Value>): (r: Result<seq<Value>, CallError>)
    ensures r.Success? <==> Fits(args, p.params)
    ensures r.Success? ==> r.value == p.body(args)
    ensures r == Failure(WrongArgCount) <==> |args| != |p.params|
  {
    if |args| != |p.params| then Failure(WrongArgCount)
    else if exists i :: 0 <= i < |args| && !AssignableTo(args[i], p.params[i]) then Failure(BadArgument)
    else Success(p.body(args))
  }

  /** `Register` on a map: the first registration of a name wins; a later one,
      and every other name, is left alone. */
  function Registered(funcs: map<string, Proc>, rpcName: string, f: Proc): (m: map<string, Proc>)
    ensures m.Keys == funcs.Keys + {rpcName}
    ensures rpcName in funcs ==> m == funcs
    ensures rpcName !in funcs ==> m[rpcName] == f
    ensures forall n :: n in funcs ==> m[n] == funcs[n]
  {
    if rpcName in funcs then funcs else funcs[rpcName := f]
  }

  /** Lookup, positional call and response envelope for one decoded request. */
  function Dispatch(funcs: map<string, Proc>, req: RPCData): (r: Result<RPCData, StopReason>)
    ensures r.Success? <==> req.name in funcs && Fits(req.args, funcs[req.name].params)
    ensures r.Success? ==> r.value == RPCData(req.name, funcs[req.name].body(req.args))
    ensures req.name !in funcs ==> r == Failure(NoSuchFunc(req.name))
    ensures req.name in funcs && r.Failure? ==> r.error.CallPanic?
  {
    if req.name !in funcs then Failure(NoSuchFunc(req.name))
    else match Call(funcs[req.name], req.args)
      case Failure(e) => Failure(CallPanic(e))
      case Success(out) => Success(RPCData(req.name, out))
  }

  /** The outcome of one request/response cycle on a connection: either a reply
      to the decoded request, or the step that failed. `rest` is what remains of
      the inbound stream. */
  datatype Cycle =
    | Replied(request: RPCData, response: RPCData, payload: seq<byte>, rest: seq<byte>)
    | Dropped(reason: StopReason, rest: seq<byte>)

  /** One cycle of `Run` on a connection that delivers `inbound` and whose writes
      fail when it is `broken`: read frame, decode, dispatch, encode, write. */
  function Serve(funcs: map<string, Proc>, codec: Codec, inbound: seq<byte>, broken: bool): (c: Cycle)
    ensures c.rest == AfterFrame(inbound)
    ensures c.Replied? ==>
      && ParseFrame(inbound).Success?
      && codec.decode(ParseFrame(inbound).value.taken) == Success(c.request)
      && Dispatch(funcs, c.request) == Success(c.response)
      && codec.encode(c.response) == Success(c.payload)
      && !broken
    ensures c.Dropped? ==> c.reason != AcceptErr
  {
    match ParseFrame(inbound)
    case Failure(e) => Dropped(ReadErr(e), [])
    case Success(f) =>
      match codec.decode(f.taken)
      case Failure(e) => Dropped(DecodeErr(e), f.rest)
      case Success(req) =>
        match Dispatch(funcs, req)
        case Failure(reason) => Dropped(reason, f.rest)
        case Success(resp) =>
          match codec.encode(resp)
          case Failure(e) => Dropped(EncodeErr(e), f.rest)
          case Success(payload) =>
            if broken then Dropped(WriteErr(WriteFailed), f.rest)
            else Replied(req, resp, payload, f.rest)
  }

  /** How a cycle shows on its connection: the inbound stream is left at `rest`,
      and a reply frame is appended to the outbound stream only on success. */
  ghost predicate Applied(c: Cycle, outBefore: seq<byte>, outAfter: seq<byte>, inAfter: seq<byte>)
  {
    && inAfter == c.rest
    && outAfter == if c.Replied? then outBefore + Frame(c.payload) else outBefore
  }

  /** A request for an unregistered name gets no reply: the cycle stops at the
      lookup and the connection's outbound stream is not written. */
  lemma UnknownNameIsDropped(funcs: map<string, Proc>, codec: Codec, inbound: seq<byte>, broken: bool, req: RPCData)
    requires ParseFrame(inbound).Success?
    requires codec.decode(ParseFrame(inbound).value.taken) == Success(req)
    requires req.name !in funcs
    ensures Serve(funcs, codec, inbound, broken) == Dropped(NoSuchFunc(req.name), ParseFrame(inbound).value.rest)
  {
  }

  /** A cycle that replies answers exactly the request it read: the procedure
      registered under the request's name receives the request's arguments, and
      the response carries that name and the procedure's results in order. */
  lemma ReplyAnswersRequest(funcs: map<string, Proc>, codec: Codec, inbound: seq<byte>, broken: bool)
    requires Serve(funcs, codec, inbound, broken).Replied?
    ensures var c := Serve(funcs, codec, inbound, broken);
      && c.request.name in funcs
      && c.response.name == c.request.name
      && c.response.args == funcs[c.request.name].body(c.request.args)
      && |c.request.args| == |funcs[c.request.name].params|
  {
  }

  /** A well-formed request for a registered procedure is answered whenever the
      response can be encoded and written. */
  lemma RegisteredNameIsServed(funcs: map<string, Proc>, codec: Codec, data: seq<byte>, rest: seq<byte>, req: RPCData)
    requires |data| < Uint32Limit
    requires codec.decode(data) == Success(req)
    requires req.name in funcs && Fits(req.args, funcs[req.name].params)
    requires codec.encode(RPCData(req.name, funcs[req.name].body(req.args))).Success?
    ensures Serve(funcs, codec, Frame(data) + rest, false)
      == Replied(req, RPCData(req.name, funcs[req.name].body(req.args)),
                 codec.encode(RPCData(req.name, funcs[req.name].body(req.args))).value, rest)
  {
    FrameRoundTrip(data, rest);
  }

  class Server {
    const addr: string
    var funcs: map<string, Proc>

    /** `NewServer(addr)`: no procedure registered yet. */
    constructor (addr: string)
      ensures this.addr == addr && funcs == map[]
    {
      this.addr := addr;
      funcs := map[];
    }

    /** `Register`: first registration of a name wins. */
    method Register(rpcName: string, f: Proc)
      modifies this`funcs
      ensures funcs == Registered(old(funcs), rpcName, f)
    {
      if rpcName in funcs {
        return;
      }
      funcs := funcs[rpcName := f];
    }

    /** The body of `Run`'s accept loop for one accepted connection. */
    method ServeConn(conn: Conn, codec: Codec) returns (c: Cycle)
      modifies conn
      ensures c == old(Serve(funcs, codec, conn.inbound, conn.broken))
      ensures Applied(c, old(conn.outbound), conn.outbound, conn.inbound)
    {
      var session := new Session(conn);
      var b := session.Read();
      if b.Failure? {
        return Dropped(ReadErr(b.error), []);
      }
      var rpcData := codec.decode(b.value);
      if rpcData.Failure? {
        return Dropped(DecodeErr(rpcData.error), conn.inbound);
      }
      var req := rpcData.value;
      if req.name !in funcs {
        return Dropped(NoSuchFunc(req.name), conn.inbound);
      }
      var f := funcs[req.name];
      var inArgs: seq<Value> := [];
      var i := 0;
      while i < |req.args|
        invariant 0 <= i <= |req.args|
        invariant inArgs == req.args[..i]
      {
        inArgs := inArgs + [req.args[i]];
        i := i + 1;
      }
      assert inArgs == req.args;
      var out := Call(f, inArgs);
      if out.Failure? {
        return Dropped(CallPanic(out.error), conn.inbound);
      }
      var outArgs: seq<Value> := [];
      var k := 0;
      while k < |out.value|
        invariant 0 <= k <= |out.value|
        invariant outArgs == out.value[..k]
      {
        outArgs := outArgs + [out.value[k]];
        k := k + 1;
      }
      assert outArgs == out.value;
      var respRPCData := RPCData(req.name, outArgs);
      var respBytes := codec.encode(respRPCData);
      if respBytes.Failure? {
        return Dropped(EncodeErr(respBytes.error), conn.inbound);
      }
      var err := session.Write(respBytes.value);
      if err.Some? {
        return Dropped(WriteErr(err.value), conn.inbound);
      }
      return Replied(req, respRPCData, respBytes.value, conn.inbound);
    }

    /** `Run` over the connections the listener accepts, in order. Each gets one
        cycle, determined by the state it was accepted in; the first cycle that
        fails ends `Run`, and later connections are never touched. Running out of
        connections is the accept error. */
    method Run(conns: seq<Conn>, codec: Codec) returns (reason: StopReason, ghost served: nat)
      requires forall i, j :: 0 <= i < j < |conns| ==> conns[i] != conns[j]
      modifies conns
      ensures served <= |conns|
      ensures served == |conns| <==> reason == AcceptErr
      ensures forall j :: 0 <= j < served ==>
        old(Serve(funcs, codec, conns[j].inbound, conns[j].broken)).Replied?
      ensures served < |conns| ==>
        old(Serve(funcs, codec, conns[served].inbound, conns[served].broken)) == Dropped(reason, conns[served].inbound)
      ensures forall j :: 0 <= j < |conns| && j <= served ==>
        Applied(old(Serve(funcs, codec, conns[j].inbound, conns[j].broken)),
                old(conns[j].outbound), conns[j].outbound, conns[j].inbound)
      ensures forall j :: served < j < |conns| ==>
        conns[j].inbound == old(conns[j].inbound) && conns[j].outbound == old(conns[j].outbound)
    {
      var i := 0;
      while i < |conns|
        invariant 0 <= i <= |conns|
        invariant forall j :: 0 <= j < i ==>
          old(Serve(funcs, codec, conns[j].inbound, conns[j].broken)).Replied?
        invariant forall j :: 0 <= j < i ==>
          Applied(old(Serve(funcs, codec, conns[j].inbound, conns[j].broken)),
                  old(conns[j].outbound), conns[j].outbound, conns[j].inbound)
        invariant forall j :: i <= j < |conns| ==>
          conns[j].inbound == old(conns[j].inbound) && conns[j].outbound == old(conns[j].outbound)
      {
        var c := ServeConn(conns[i], codec);
        if c.Dropped? {
          reason, served := c.reason, i;
          return;
        }
        i := i + 1;
      }
      reason, served := AcceptErr, |conns|;
    }
  }
}
