/** A whole call across a connected pair: the client's request frame is what the
    server reads, and the server's reply frame is what the client reads. */
module RpcEndToEnd {
  import opened Net
  import opened RpcSession
  import opened RpcCodec
  import opened RpcServer
  import opened RpcClient

  /** If both envelopes cross the wire intact, a call of a registered procedure
      with fitting arguments returns, after the nil-to-zero mapping, exactly what
      the procedure computes locally, and each side consumes the other's frame
      entirely. */
  lemma RemoteCallReturnsLocalResults(funcs: map<string, Proc>, codec: Codec, rpcName: string,
                                      outs: seq<Type>, args: seq<Value>)
    requires rpcName in funcs && Fits(args, funcs[rpcName].params)
    requires Transmits(codec, Request(rpcName, args))
    requires Transmits(codec, RPCData(rpcName, funcs[rpcName].body(args)))
    ensures var sent := Exchange(codec, rpcName, outs, args, [], false).written;
      var results := funcs[rpcName].body(args);
      var cycle := Serve(funcs, codec, sent, false);
      && sent == Frame(codec.encode(Request(rpcName, args)).value)
      && cycle == Replied(Request(rpcName, args), RPCData(rpcName, results),
                          codec.encode(RPCData(rpcName, results)).value, [])
      && Exchange(codec, rpcName, outs, args, Frame(cycle.payload), false)
         == CallStep(Collected(results, outs), sent, [])
  {
    var req := Request(rpcName, args);
    var results := funcs[rpcName].body(args);
    var reqBytes := codec.encode(req).value;
    var respBytes := codec.encode(RPCData(rpcName, results)).value;
    RegisteredNameIsServed(funcs, codec, reqBytes, [], req);
    assert Frame(reqBytes) + [] == Frame(reqBytes);
    FrameRoundTrip(respBytes, []);
    assert Frame(respBytes) + [] == Frame(respBytes);
  }

  /** A call of a name the server does not know gets no reply frame: the server
      stops without writing, and once the server's end of the connection is
      closed the client's read finds nothing and panics with EOF. */
  lemma UnknownNameMakesCallPanic(funcs: map<string, Proc>, codec: Codec, rpcName: string,
                                  outs: seq<Type>, args: seq<Value>)
    requires rpcName !in funcs
    requires Transmits(codec, Request(rpcName, args))
    ensures var sent := Exchange(codec, rpcName, outs, args, [], false).written;
      && Serve(funcs, codec, sent, false) == Dropped(NoSuchFunc(rpcName), [])
      && Exchange(codec, rpcName, outs, args, [], false).outcome == Panicked(ReadPanic(EOF))
  {
    var reqBytes := codec.encode(Request(rpcName, args)).value;
    FrameRoundTrip(reqBytes, []);
    assert Frame(reqBytes) + [] == Frame(reqBytes);
  }
}
