/** The client side (rpc/client.go): binding a declared function prototype to a
    remote procedure, and what one call of the bound function does. */
module RpcClient {
  import opened Base
  import opened Net
  import opened RpcSession
  import opened RpcCodec

  /** A declared function type `func(ins...) (outs...)` as reflection sees it. */
  datatype Prototype = Prototype(ins: seq<Type>, outs: seq<Type>)

  /** Why a call panics instead of returning. */
  datatype Panic =
    | EncodePanic(codec: CodecError)
    | WritePanic(io: IOError)
    | ReadPanic(io: IOError)
    | DecodePanic(codec: CodecError)
    | OutIndexPanic(index: nat)   // `fn.Type().Out(i)` for a nil slot beyond the declared results
    | WrongReturn                 // the values do not fit the prototype's results
    | NilFuncCall                 // calling a function variable that was never bound

  /** A call either returns its values or panics and returns nothing. */
  datatype Outcome = Returned(values: seq<Value>) | Panicked(cause: Panic)

  /** The stub's result loop over response slots: a nil slot becomes the zero
      value of the declared result type at its position, any other slot passes
      through. A nil slot with no declared result type at its position fails
      with that index. */
  function Fill(vals: seq<Value>, outs: seq<Type>): (r: Result<seq<Value>, nat>)
    ensures r.Success? <==> forall i :: 0 <= i < |vals| && vals[i].VNil? ==> i < |outs|
    ensures r.Success? ==> |r.value| == |vals|
    ensures r.Success? ==> forall i :: 0 <= i < |vals| ==>
      r.value[i] == if vals[i].VNil? then Zero(outs[i]) else vals[i]
    ensures r.Failure? ==>
      && r.error < |vals| && vals[r.error].VNil? && |outs| <= r.error
      && forall i :: 0 <= i < r.error ==> !vals[i].VNil? || i < |outs|
    decreases |vals|
  {
    if vals == [] then Success([])
    else
      var n := |vals| - 1;
      match Fill(vals[..n], outs)
      case Failure(i) => Failure(i)
      case Success(prefix) =>
        if vals[n].VNil? && |outs| <= n then Failure(n)
        else Success(prefix + [if vals[n].VNil? then Zero(outs[n]) else vals[n]])
  }

  /** The values the stub hands back for the response slots `vals`: one value
      per slot, nil slots replaced by the zero value of their declared result
      type; the call panics at the first nil slot that has no declared type. */
  function Collected(vals: seq<Value>, outs: seq<Type>): (o: Outcome)
    ensures o.Returned? <==> forall i :: 0 <= i < |vals| && vals[i].VNil? ==> i < |outs|
    ensures o.Returned? ==> |o.values| == |vals|
    ensures o.Returned? ==> forall i :: 0 <= i < |vals| ==>
      o.values[i] == if vals[i].VNil? then Zero(outs[i]) else vals[i]
    ensures o.Panicked? ==>
      && o.cause.OutIndexPanic?
      && o.cause.index < |vals| && vals[o.cause.index].VNil? && |outs| <= o.cause.index
      && forall i :: 0 <= i < o.cause.index ==> !vals[i].VNil? || i < |outs|
  {
    match Fill(vals, outs)
    case Success(vs) => Returned(vs)
    case Failure(i) => Panicked(OutIndexPanic(i))
  }

  /** One call of the stub on a connection that delivers `inbound` and whose
      writes fail when it is `broken`: the outcome, the bytes written, and what
      remains of the inbound stream. */
  datatype CallStep = CallStep(outcome: Outcome, written: seq<byte>, rest: seq<byte>)

  /** The request envelope of a call: the bound name and the arguments in order. */
  function Request(rpcName: string, args: seq<Value>): (d: RPCData)
    ensures d.name == rpcName && d.args == args
  {
    RPCData(rpcName, args)
  }

  /** The closure that `callRPC` binds: encode the request, write one frame,
      read one frame, decode the response and map its slots to the prototype. */
  function Exchange(codec: Codec, rpcName: string, outs: seq<Type>, args: seq<Value>,
                    inbound: seq<byte>, broken: bool): (s: CallStep)
    ensures s.written == if codec.encode(Request(rpcName, args)).Success? && !broken
      then Frame(codec.encode(Request(rpcName, args)).value) else []
    ensures s.rest == if s.written == [] then inbound else AfterFrame(inbound)
    ensures s.outcome.Returned? ==>
      && s.written != []
      && ParseFrame(inbound).Success?
      && codec.decode(ParseFrame(inbound).value.taken).Success?
      && Fill(codec.decode(ParseFrame(inbound).value.taken).value.args, outs) == Success(s.outcome.values)
  {
    match codec.encode(Request(rpcName, args))
    case Failure(e) => CallStep(Panicked(EncodePanic(e)), [], inbound)
    case Success(b) =>
      if broken then CallStep(Panicked(WritePanic(WriteFailed)), [], inbound)
      else
        match ParseFrame(inbound)
        case Failure(e) => CallStep(Panicked(ReadPanic(e)), Frame(b), [])
        case Success(f) =>
          match codec.decode(f.taken)
          case Failure(e) => CallStep(Panicked(DecodePanic(e)), Frame(b), f.rest)
          case Success(resp) => CallStep(Collected(resp.args, outs), Frame(b), f.rest)
  }

  /** Whether values fit a prototype's results, as the function made by
      `reflect.MakeFunc` checks: same count, and each value assignable to its
      result type (a nil error is assignable to `error`). */
  predicate FitsResults(vals: seq<Value>, outs: seq<Type>)
  {
    |vals| == |outs| && forall i :: 0 <= i < |vals| ==> AssignableTo(vals[i], outs[i]) || (vals[i].VNil? && outs[i] == TError)
  }

  /** What a caller of the bound function sees: the closure's outcome, unless the
      values it returned do not fit the prototype. */
  function Typed(o: Outcome, outs: seq<Type>): (t: Outcome)
    ensures t.Returned? <==> o.Returned? && FitsResults(o.values, outs)
    ensures t.Returned? ==> t.values == o.values
    ensures o.Panicked? ==> t == o
  {
    if o.Returned? && !FitsResults(o.values, outs) then Panicked(WrongReturn) else o
  }

  /** What the caller of a bound function receives for response slots `vals`:
      it gets values exactly when there is one slot per declared result and
      every non-nil slot has its result's type, and then a nil slot reads as
      the zero value of its type. Otherwise the call panics, at the first
      out-of-range nil slot or at the return check. */
  lemma TypedCollected(vals: seq<Value>, outs: seq<Type>)
    ensures var t := Typed(Collected(vals, outs), outs);
      && (t.Returned? <==>
            |vals| == |outs| && forall i :: 0 <= i < |vals| ==> vals[i].VNil? || AssignableTo(vals[i], outs[i]))
      && (t.Returned? ==> forall i :: 0 <= i < |vals| ==>
            t.values[i] == if vals[i].VNil? then Zero(outs[i]) else vals[i])
      && (t.Panicked? ==> t.cause == WrongReturn || t.cause.OutIndexPanic?)
  {
  }

  /** The stub's result loop, as `callRPC` writes it: response slots in order,
      nil replaced by the zero value of the declared type. */
  method MapResults(vals: seq<Value>, outs: seq<Type>) returns (r: Result<seq<Value>, nat>)
    ensures r == Fill(vals, outs)
  {
    var outArgs: seq<Value> := [];
    var i := 0;
    while i < |vals|
      invariant 0 <= i <= |vals|
      invariant Fill(vals[..i], outs) == Success(outArgs)
    {
      assert vals[..i + 1][..i] == vals[..i];
      if vals[i].VNil? {
        if |outs| <= i {
          return Failure(i);
        }
        outArgs := outArgs + [Zero(outs[i])];
      } else {
        outArgs := outArgs + [vals[i]];
      }
      i := i + 1;
    }
    assert vals[..i] == vals;
    return Success(outArgs);
  }

  /** What `callRPC` stores through its function pointer: a call of `rpcName`
      over the client's connection. */
  datatype Stub = Stub(client: Client, rpcName: string)

  /** A function variable of a declared prototype, nil until `callRPC` binds it. */
  class FuncVar {
    const proto: Prototype
    var stub: Option<Stub>

    constructor (proto: Prototype)
      ensures this.proto == proto && stub == None
    {
      this.proto := proto;
      stub := None;
    }

    /** Calling the function variable with `args`. */
    method Apply(args: seq<Value>, codec: Codec) returns (r: Outcome)
      modifies if stub.Some? then {stub.value.client.conn} else {}
      ensures stub == old(stub)
      ensures stub.None? ==> r == Panicked(NilFuncCall)
      ensures stub.Some? ==>
        var conn := stub.value.client.conn;
        var s := old(Exchange(codec, stub.value.rpcName, proto.outs, args, conn.inbound, conn.broken));
        && r == Typed(s.outcome, proto.outs)
        && conn.outbound == old(conn.outbound) + s.written
        && conn.inbound == s.rest
    {
      if stub.None? {
        return Panicked(NilFuncCall);
      }
      var o := stub.value.client.Invoke(stub.value.rpcName, proto.outs, args, codec);
      return Typed(o, proto.outs);
    }
  }

  class Client {
    const conn: Conn

    /** `NewClient(conn)`: every call of every stub uses this one connection. */
    constructor (conn: Conn)
      ensures this.conn == conn
    {
      this.conn := conn;
    }

    /** `callRPC(rpcName, fPtr)`: bind the function variable to the remote procedure. */
    method CallRPC(rpcName: string, fPtr: FuncVar)
      modifies fPtr
      ensures fPtr.stub == Some(Stub(this, rpcName))
    {
      fPtr.stub := Some(Stub(this, rpcName));
    }

    /** The closure built by `callRPC`, applied to `args`: one frame written and
        one frame read on the client's connection; any failure panics. */
    method Invoke(rpcName: string, outs: seq<Type>, args: seq<Value>, codec: Codec) returns (r: Outcome)
      modifies conn
      ensures var s := old(Exchange(codec, rpcName, outs, args, conn.inbound, conn.broken));
        && r == s.outcome
        && conn.outbound == old(conn.outbound) + s.written
        && conn.inbound == s.rest
    {
      var inArgs: seq<Value> := [];
      var i := 0;
      while i < |args|
        invariant 0 <= i <= |args|
        invariant inArgs == args[..i]
      {
        inArgs := inArgs + [args[i]];
        i := i + 1;
      }
      assert inArgs == args;
      var cliSession := new Session(conn);
      var reqRPC := RPCData(rpcName, inArgs);
      var b := codec.encode(reqRPC);
      if b.Failure? {
        return Panicked(EncodePanic(b.error));
      }
      var err := cliSession.Write(b.value);
      if err.Some? {
        return Panicked(WritePanic(err.value));
      }
      var respBytes := cliSession.Read();
      if respBytes.Failure? {
        return Panicked(ReadPanic(respBytes.error));
      }
      var respRPC := codec.decode(respBytes.value);
      if respRPC.Failure? {
        return Panicked(DecodePanic(respRPC.error));
      }
      var outArgs := MapResults(respRPC.value.args, outs);
      if outArgs.Failure? {
        return Panicked(OutIndexPanic(outArgs.error));
      }
      return Returned(outArgs.value);
    }
  }
}
