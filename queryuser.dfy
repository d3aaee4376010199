/** The procedure of rpc/rpc_test.go and the call the test makes. */
module QueryUserExample {
  import opened Base
  import opened RpcCodec
  import opened RpcServer
  import opened RpcClient
  import opened RpcSession
  import RpcEndToEnd

  /** Go's `%d` rendering of an integer: no leading zero, a minus sign for a
      negative number. `DecimalStringReadsBack` proves the digits denote `n`. */
  function DecimalString(n: int): (s: string)
    ensures |s| >= 1
    ensures n >= 0 ==> forall k :: 0 <= k < |s| ==> '0' <= s[k] <= '9'
    ensures n > 0 ==> s[0] != '0'
    ensures n < 0 ==> s[0] == '-'
    decreases if n < 0 then 1 - n else n
  {
    if n < 0 then "-" + DecimalString(-n)
    else if n < 10 then [(48 + n) as char]
    else DecimalString(n / 10) + [(48 + n % 10) as char]
  }

  /** The number a string of decimal digits denotes, most significant first. */
  function DigitsValue(s: string): int
    decreases |s|
  {
    if s == [] then 0 else 10 * DigitsValue(s[..|s| - 1]) + (s[|s| - 1] as int - 48)
  }

  /** The number a decimal rendering denotes: digits, optionally after a minus sign. */
  function ReadDecimal(s: string): int
  {
    if |s| > 0 && s[0] == '-' then -DigitsValue(s[1..]) else DigitsValue(s)
  }

  lemma {:induction false} DigitsReadBack(n: nat)
    ensures DigitsValue(DecimalString(n)) == n
    decreases n
  {
    var s := DecimalString(n);
    if n >= 10 {
      DigitsReadBack(n / 10);
      assert s[..|s| - 1] == DecimalString(n / 10);
    }
  }

  /** Reading the rendering of `n` back as a decimal number gives `n`. */
  lemma DecimalStringReadsBack(n: int)
    ensures ReadDecimal(DecimalString(n)) == n
  {
    if n < 0 {
      DigitsReadBack(-n);
      assert DecimalString(n)[1..] == DecimalString(-n);
    } else {
      DigitsReadBack(n);
    }
  }

  /** The in-memory user table of the test. */
  const UserDb: map<int, Value> := map[0 := VUser("ives", 20), 1 := VUser("Tom", 18), 2 := VUser("Jack", 30)]

  /** `queryUser(uid) (User, error)`: the user and a nil error, or the empty user
      and the error "id N not in user db". */
  function QueryUser(uid: int): (r: seq<Value>)
    ensures |r| == 2 && r[0].VUser?
    ensures r[1] == VNil <==> uid in UserDb
    ensures uid in UserDb ==> r[0] == UserDb[uid]
    ensures uid !in UserDb ==> r[0] == Zero(TUser) && r[1] == VErr("id " + DecimalString(uid) + " not in user db")
  {
    if uid in UserDb then [UserDb[uid], VNil]
    else [VUser("", 0), VErr("id " + DecimalString(uid) + " not in user db")]
  }

  /** `queryUser` as the server holds it after `Register`. */
  const QueryUserProc: Proc := Proc([TInt], (args: seq<Value>) => if |args| == 1 && args[0].VInt? then QueryUser(args[0].i) else [])

  /** `var query func(int) (User, error)`. */
  const QueryPrototype: Prototype := Prototype([TInt], [TUser, TError])

  /** The two answers the test's table gives. */
  lemma QueryUserAnswers()
    ensures QueryUser(2) == [VUser("Jack", 30), VNil]
    ensures QueryUser(99) == [VUser("", 0), VErr("id 99 not in user db")]
  {
    assert DecimalString(9) == "9";
    assert DecimalString(99) == "99";
    assert "id " + DecimalString(99) + " not in user db" == "id 99 not in user db";
  }

  /** The zero-value mapping leaves `queryUser`'s results as they are, and they
      fit the prototype `func(int) (User, error)`. */
  lemma QueryUserResultsFit(uid: int)
    ensures Fill(QueryUser(uid), QueryPrototype.outs) == Success(QueryUser(uid))
    ensures FitsResults(QueryUser(uid), QueryPrototype.outs)
  {
    var filled := Fill(QueryUser(uid), QueryPrototype.outs);
    assert filled.Success?;
    assert filled.value[1] == QueryUser(uid)[1];
    assert filled.value == QueryUser(uid);
  }

  /** A call `query(uid)` through a stub bound to "queryUser", on a server where
      `queryUser` is registered: when both envelopes cross the wire intact, the
      caller receives exactly what `queryUser(uid)` returns locally. */
  lemma QueryUserEndToEnd(codec: Codec, uid: int)
    requires Transmits(codec, Request("queryUser", [VInt(uid)]))
    requires Transmits(codec, RPCData("queryUser", QueryUser(uid)))
    ensures var funcs := Registered(map[], "queryUser", QueryUserProc);
      var sent := Exchange(codec, "queryUser", QueryPrototype.outs, [VInt(uid)], [], false).written;
      var cycle := Serve(funcs, codec, sent, false);
      && cycle.Replied?
      && Typed(Exchange(codec, "queryUser", QueryPrototype.outs, [VInt(uid)], Frame(cycle.payload), false).outcome,
               QueryPrototype.outs)
         == Returned(QueryUser(uid))
  {
    var funcs := Registered(map[], "queryUser", QueryUserProc);
    assert Fits([VInt(uid)], funcs["queryUser"].params);
    RpcEndToEnd.RemoteCallReturnsLocalResults(funcs, codec, "queryUser", QueryPrototype.outs, [VInt(uid)]);
    QueryUserResultsFit(uid);
  }

  /** The test's call `query(2)` yields `(User{"Jack", 30}, nil)`. */
  lemma QueryJack(codec: Codec)
    requires Transmits(codec, Request("queryUser", [VInt(2)]))
    requires Transmits(codec, RPCData("queryUser", [VUser("Jack", 30), VNil]))
    ensures var funcs := Registered(map[], "queryUser", QueryUserProc);
      var sent := Exchange(codec, "queryUser", QueryPrototype.outs, [VInt(2)], [], false).written;
      var cycle := Serve(funcs, codec, sent, false);
      && cycle.Replied?
      && Typed(Exchange(codec, "queryUser", QueryPrototype.outs, [VInt(2)], Frame(cycle.payload), false).outcome,
               QueryPrototype.outs)
         == Returned([VUser("Jack", 30), VNil])
  {
    QueryUserAnswers();
    QueryUserEndToEnd(codec, 2);
  }

  /** The call `query(99)`, when its error value crosses the wire, yields the
      empty user and the error "id 99 not in user db". */
  lemma QueryMissing(codec: Codec)
    requires Transmits(codec, Request("queryUser", [VInt(99)]))
    requires Transmits(codec, RPCData("queryUser", [VUser("", 0), VErr("id 99 not in user db")]))
    ensures var funcs := Registered(map[], "queryUser", QueryUserProc);
      var sent := Exchange(codec, "queryUser", QueryPrototype.outs, [VInt(99)], [], false).written;
      var cycle := Serve(funcs, codec, sent, false);
      && cycle.Replied?
      && Typed(Exchange(codec, "queryUser", QueryPrototype.outs, [VInt(99)], Frame(cycle.payload), false).outcome,
               QueryPrototype.outs)
         == Returned([VUser("", 0), VErr("id 99 not in user db")])
  {
    QueryUserAnswers();
    QueryUserEndToEnd(codec, 99);
  }

  /** When the codec cannot carry `queryUser`'s results (a non-nil error whose
      concrete type the codec does not know), the server reads and answers the
      call but fails to encode the response: the cycle ends with the encode
      error, nothing is written back, and the request frame is consumed. */
  lemma UnencodableResultsGetNoReply(codec: Codec, uid: int)
    requires Transmits(codec, Request("queryUser", [VInt(uid)]))
    requires codec.encode(RPCData("queryUser", QueryUser(uid))).Failure?
    ensures var funcs := Registered(map[], "queryUser", QueryUserProc);
      var sent := Exchange(codec, "queryUser", QueryPrototype.outs, [VInt(uid)], [], false).written;
      Serve(funcs, codec, sent, false) == Dropped(EncodeErr(codec.encode(RPCData("queryUser", QueryUser(uid))).error), [])
  {
    var reqBytes := codec.encode(Request("queryUser", [VInt(uid)])).value;
    FrameRoundTrip(reqBytes, []);
    assert Frame(reqBytes) + [] == Frame(reqBytes);
    var funcs := Registered(map[], "queryUser", QueryUserProc);
    assert Fits([VInt(uid)], funcs["queryUser"].params);
  }
}
