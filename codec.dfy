/** The request/response envelope (rpc/codec.go) and the dynamic values it carries. */
module RpcCodec {
  import opened Base
  import opened Binary

  /** The Go types that appear in procedure prototypes. `TError` is the `error`
      interface; the others are concrete types. */
  datatype Type = TInt | TString | TBool | TUser | TError

  /** A dynamic value in an `[]interface{}` slot. `VUser` is the test's
      `User{Name, Age}` record, `VErr` a non-nil error, `VNil` a nil interface. */
  datatype Value =
    | VInt(i: int)
    | VStr(s: string)
    | VBool(b: bool)
    | VUser(name: string, age: int)
    | VErr(msg: string)
    | VNil

  /** Whether reflection accepts `v` where a `t` is expected. A nil slot is never
      accepted: `reflect.ValueOf(nil)` is the invalid Value, which `Call` rejects. */
  predicate AssignableTo(v: Value, t: Type)
  {
    match v
    case VInt(_) => t == TInt
    case VStr(_) => t == TString
    case VBool(_) => t == TBool
    case VUser(_, _) => t == TUser
    case VErr(_) => t == TError
    case VNil => false
  }

  /** `reflect.Zero(t)`: the zero value of a type; that of the `error`
      interface is nil. */
  function Zero(t: Type): (z: Value)
    ensures t == TError <==> z == VNil
    ensures t != TError ==> AssignableTo(z, t)
  {
    match t
    case TInt => VInt(0)
    case TString => VStr("")
    case TBool => VBool(false)
    case TUser => VUser("", 0)
    case TError => VNil
  }

  /** `RPCData{Name, Args}`: a request names a procedure and carries its
      arguments; a response echoes the name and carries the results. */
  datatype RPCData = RPCData(name: string, args: seq<Value>)

  datatype CodecError = EncodeFailed | DecodeFailed

  /** The serialisation pair `encode`/`decode`. The gob format behind them is
      not part of this model, so they are parameters. */
  datatype Codec = Codec(
    encode: RPCData -> Result<seq<byte>, CodecError>,
    decode: seq<byte> -> Result<RPCData, CodecError>)

  /** The hypothesis under which an envelope crosses the wire intact: it encodes,
      its encoding fits in one frame, and decoding gives it back. */
  ghost predicate Transmits(codec: Codec, d: RPCData)
  {
    && codec.encode(d).Success?
    && |codec.encode(d).value| < Uint32Limit
    && codec.decode(codec.encode(d).value) == Success(d)
  }
}
