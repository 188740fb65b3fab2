/** The wire messages of bittensor.proto that the tensor codec fills in:
    the DataType enum and the Tensor / TensorDef messages. The protobuf
    byte encoding itself happens inside the protobuf library and is not
    modelled; a message is the record of its fields. */
module Proto {
  import opened PyErrors

  /** `ReturnCode.Success`, the return code of a successful forward call.
      The ReturnCode enum is not part of this model; 1 is the value
      train_memory.py compares return codes against. */
  const SUCCESS_CODE: int := 1

  /** Element types a tensor on the wire may declare. */
  datatype DataType = UNKNOWN | FLOAT32 | FLOAT64 | INT32 | INT64 | STRING | IMAGE

  /** The enum number each element type has on the wire. */
  function Code(d: DataType): (c: int)
    ensures 0 <= c <= 6
    ensures c == 0 <==> d == UNKNOWN
  {
    match d
    case UNKNOWN => 0
    case FLOAT32 => 1
    case FLOAT64 => 2
    case INT32 => 3
    case INT64 => 4
    case STRING => 5
    case IMAGE => 6
  }

  /** The element type an enum number names, if any (proto3 enums are open,
      so a received field may hold any number). */
  function FromCode(c: int): (r: Option<DataType>)
    ensures r.Some? <==> 0 <= c <= 6
  {
    if c == 0 then Some(UNKNOWN)
    else if c == 1 then Some(FLOAT32)
    else if c == 2 then Some(FLOAT64)
    else if c == 3 then Some(INT32)
    else if c == 4 then Some(INT64)
    else if c == 5 then Some(STRING)
    else if c == 6 then Some(IMAGE)
    else None
  }

  /** Every element type survives the trip through its wire number, and every
      known wire number names exactly one element type. */
  lemma CodeRoundTrip(d: DataType, c: int)
    ensures FromCode(Code(d)) == Some(d)
    ensures FromCode(c).Some? ==> Code(FromCode(c).value) == c
    ensures Code(d) == c ==> FromCode(c) == Some(d)
  {
  }

  /** Metadata of a serialized tensor: version, shape, element type (as its
      wire number) and whether gradients are tracked. */
  datatype TensorDef = TensorDef(version: string, shape: seq<int>, dtype: int, requiresGrad: bool)

  /** A serialized tensor: version, raw payload bytes and metadata. */
  datatype TensorProto = TensorProto(version: string, buffer: seq<bv8>, tensorDef: TensorDef)
}
