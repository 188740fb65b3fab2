/** The tensor wire codec of bittensor/serializer.py: the three element-type
    maps, the TensorDef builders, the `serialize` dispatch, the numeric
    tensor encoder/decoder and the string/image paths.

    A tensor is its element type, shape, gradient flag and its elements in
    row-major order, each element the bit pattern of its value in the low
    bytes of a 64-bit word. "Native" byte order is fixed to little-endian.
    The string and image batches go through Python's pickle, which is not
    modelled: its `dumps`/`loads` are parameters, an opaque blob codec. */
module Serializer {
  import opened PyErrors
  import opened Proto
  import opened ByteCodec

  /** torch element types: the four the codec supports and a selection of
      the others. */
  datatype TorchDtype = Float32 | Float64 | Int32 | Int64 | Float16 | BFloat16 | Int16 | Int8 | UInt8 | Bool

  /** numpy element types the decoder can ask for. */
  datatype NpDtype = NpFloat32 | NpFloat64 | NpInt32 | NpInt64

  /** Bytes per element of a torch element type. */
  function Width(t: TorchDtype): (w: nat)
    ensures IsWidth(w)
  {
    match t
    case Float32 => 4
    case Float64 => 8
    case Int32 => 4
    case Int64 => 8
    case Float16 => 2
    case BFloat16 => 2
    case Int16 => 2
    case Int8 => 1
    case UInt8 => 1
    case Bool => 1
  }

  /** Bytes per element of a numpy element type. */
  function NpWidth(t: NpDtype): (w: nat)
    ensures IsWidth(w)
  {
    match t
    case NpFloat32 => 4
    case NpFloat64 => 8
    case NpInt32 => 4
    case NpInt64 => 8
  }

  /** The torch element type `torch.as_tensor` gives a numpy array. */
  function TorchOfNp(t: NpDtype): (r: TorchDtype)
    ensures Width(r) == NpWidth(t)
    ensures IsSupported(r)
  {
    match t
    case NpFloat32 => Float32
    case NpFloat64 => Float64
    case NpInt32 => Int32
    case NpInt64 => Int64
  }

  /** Only floating-point tensors may track gradients in torch. */
  predicate IsFloating(t: TorchDtype) {
    t == Float32 || t == Float64 || t == Float16 || t == BFloat16
  }

  /** The element types that have a numeric wire code of their own. */
  predicate IsSupported(t: TorchDtype) {
    t == Float32 || t == Float64 || t == Int32 || t == Int64
  }

  /** torch_dtype_to_bittensor_dtype: the four supported types map to their
      own codes, every other type to UNKNOWN; it never fails. */
  function TorchToBittensor(t: TorchDtype): (d: DataType)
    ensures IsSupported(t) <==> d != UNKNOWN
    ensures d != STRING && d != IMAGE
  {
    if t == Float32 then FLOAT32
    else if t == Float64 then FLOAT64
    else if t == Int32 then INT32
    else if t == Int64 then INT64
    else UNKNOWN
  }

  /** bittensor_dtype_to_torch_dtype on a received wire code; every code but
      the four numeric ones falls back to float32. */
  function BittensorToTorch(code: int): (t: TorchDtype)
    ensures IsSupported(t)
    ensures !(1 <= code <= 4) ==> t == Float32
  {
    if code == Code(FLOAT32) then Float32
    else if code == Code(FLOAT64) then Float64
    else if code == Code(INT32) then Int32
    else if code == Code(INT64) then Int64
    else Float32
  }

  /** bittensor_dtype_np_dtype on a received wire code; every code but the
      four numeric ones falls back to float32. */
  function BittensorToNp(code: int): (t: NpDtype)
    ensures !(1 <= code <= 4) ==> t == NpFloat32
  {
    if code == Code(FLOAT32) then NpFloat32
    else if code == Code(FLOAT64) then NpFloat64
    else if code == Code(INT32) then NpInt32
    else if code == Code(INT64) then NpInt64
    else NpFloat32
  }

  /** The decoding maps invert the encoding map exactly on the supported
      types: a type comes back from its wire code if and only if it is one of
      the four, and the numpy and torch decoding maps agree on every code. */
  lemma DtypeMapsInverse(t: TorchDtype, code: int)
    ensures BittensorToTorch(Code(TorchToBittensor(t))) == t <==> IsSupported(t)
    ensures TorchOfNp(BittensorToNp(Code(TorchToBittensor(t)))) == BittensorToTorch(Code(TorchToBittensor(t)))
    ensures TorchOfNp(BittensorToNp(code)) == BittensorToTorch(code)
  {
  }

  /** A torch tensor: element type, shape, gradient flag and the elements in
      row-major order. */
  datatype Tensor = Tensor(dtype: TorchDtype, shape: seq<int>, requiresGrad: bool, elems: seq<bv64>)

  /** The number of elements a shape holds. */
  function Product(shape: seq<int>): int
    decreases |shape|
  {
    if shape == [] then 1 else shape[0] * Product(shape[1..])
  }

  /** A tensor torch can hold: non-negative dimensions, one element per
      position, each element within its type's width, and gradients only on
      floating-point types. */
  predicate ValidTensor(t: Tensor) {
    && (forall i :: 0 <= i < |t.shape| ==> t.shape[i] >= 0)
    && |t.elems| == Product(t.shape)
    && (forall i :: 0 <= i < |t.elems| ==> Fits(t.elems[i], Width(t.dtype)))
    && (t.requiresGrad ==> IsFloating(t.dtype))
  }

  /** tensor_todef: a tensor of rank below 2 fails the batch-dimension
      assertion; otherwise the shape and gradient flag are copied and the
      element type is mapped to its wire code. */
  function TensorToDef(t: Tensor, version: string): (r: Result<TensorDef>)
    ensures r.Raise? <==> |t.shape| < 2
    ensures r.Raise? ==> r.error == AssertionError
    ensures r.Ok? ==> (r.value.shape == t.shape && r.value.requiresGrad == t.requiresGrad &&
                       r.value.version == version && r.value.dtype == Code(TorchToBittensor(t.dtype)))
  {
    var dtype := TorchToBittensor(t.dtype);
    if |t.shape| <= 1 then Raise(AssertionError)
    else Ok(TensorDef(version, t.shape, Code(dtype), t.requiresGrad))
  }

  /** serialize_tensor: `tensor.cpu().numpy()` runs first, and torch refuses
      it for a tensor that requires grad (RuntimeError) and for bfloat16,
      which numpy has no type for (TypeError); then the TensorDef is built,
      with its rank assertion. The buffer is the flat row-major byte dump of
      the elements, `Width` bytes each. A tensor that requires grad never
      reaches the wire, so no proto built here carries the flag. */
  function SerializeTensor(t: Tensor, version: string): (r: Result<TensorProto>)
    ensures r.Raise? <==> t.requiresGrad || t.dtype == BFloat16 || |t.shape| < 2
    ensures t.requiresGrad ==> r == Raise(RuntimeError)
    ensures !t.requiresGrad && t.dtype == BFloat16 ==> r == Raise(TypeError)
    ensures !t.requiresGrad && t.dtype != BFloat16 && |t.shape| < 2 ==> r == Raise(AssertionError)
    ensures r.Ok? ==> r.value.buffer == EncodeElems(t.elems, Width(t.dtype))
    ensures r.Ok? ==> |r.value.buffer| == |t.elems| * Width(t.dtype)
    ensures r.Ok? && ValidTensor(t) ==> |r.value.buffer| == Product(t.shape) * Width(t.dtype)
    ensures r.Ok? ==> (r.value.version == version && r.value.tensorDef.shape == t.shape &&
                       r.value.tensorDef.dtype == Code(TorchToBittensor(t.dtype)) &&
                       !r.value.tensorDef.requiresGrad)
  {
    if t.requiresGrad then Raise(RuntimeError)
    else if t.dtype == BFloat16 then Raise(TypeError)
    else
      var buffer := EncodeElems(t.elems, Width(t.dtype));
      EncodeLength(t.elems, Width(t.dtype));
      var tensorDef :- TensorToDef(t, version);
      Ok(TensorProto(version, buffer, tensorDef))
  }

  /** deserialize_tensor. The element type comes from the wire code (unknown
      codes read as float32); numpy refuses a buffer that is not a whole
      number of elements; a shape of rank below 2 fails the batch-dimension
      assertion; torch refuses a view whose shape does not hold exactly the
      elements read, and refuses gradients on an integer tensor. */
  function DeserializeTensor(p: TensorProto): (r: Result<Tensor>)
    ensures r.Ok? ==> ValidTensor(r.value)
    ensures r.Ok? ==> (|r.value.shape| >= 2 && r.value.shape == p.tensorDef.shape &&
                       r.value.requiresGrad == p.tensorDef.requiresGrad &&
                       r.value.dtype == BittensorToTorch(p.tensorDef.dtype))
    ensures r.Ok? ==> |p.buffer| == Product(p.tensorDef.shape) * Width(r.value.dtype)
    ensures |p.tensorDef.shape| < 2 ==> r.Raise?
  {
    var np := BittensorToNp(p.tensorDef.dtype);
    var w := NpWidth(np);
    if |p.buffer| % w != 0 then Raise(ValueError)
    else
      var elems := DecodeElems(p.buffer, w);
      var shape := p.tensorDef.shape;
      if |shape| <= 1 then Raise(AssertionError)
      else if !(forall i :: 0 <= i < |shape| ==> shape[i] >= 0) || Product(shape) != |elems| then Raise(RuntimeError)
      else if p.tensorDef.requiresGrad && !IsFloating(TorchOfNp(np)) then Raise(RuntimeError)
      else
        DecodedFit(p.buffer, w);
        DecodeExact(p.buffer, w);
        Ok(Tensor(TorchOfNp(np), shape, p.tensorDef.requiresGrad, elems))
  }

  /** Round trip: a valid tensor of rank at least 2 with one of the four
      supported element types, that does not require grad, decodes from its
      own serialization bit for bit, with its shape. */
  lemma TensorRoundTrip(t: Tensor, version: string)
    requires ValidTensor(t) && |t.shape| >= 2 && IsSupported(t.dtype) && !t.requiresGrad
    ensures SerializeTensor(t, version).Ok?
    ensures DeserializeTensor(SerializeTensor(t, version).value) == Ok(t)
  {
    var p := SerializeTensor(t, version).value;
    var w := Width(t.dtype);
    var np := BittensorToNp(p.tensorDef.dtype);
    assert TorchOfNp(np) == t.dtype;
    EncodeLength(t.elems, w);
    ElemsRoundTrip(t.elems, w);
    DecodeBranch(p, t, np, w);
  }

  /** The branch of deserialize_tensor taken for a buffer that is a whole
      number of elements decoding to the elements of a valid tensor with the
      same shape, flag and type. */
  lemma DecodeBranch(p: TensorProto, t: Tensor, np: NpDtype, w: nat)
    requires ValidTensor(t) && |t.shape| >= 2
    requires np == BittensorToNp(p.tensorDef.dtype) && TorchOfNp(np) == t.dtype && w == Width(t.dtype)
    requires p.tensorDef.shape == t.shape && p.tensorDef.requiresGrad == t.requiresGrad
    requires |p.buffer| == |t.elems| * w && DecodeElems(p.buffer, w) == t.elems
    ensures DeserializeTensor(p) == Ok(t)
  {
    assert NpWidth(np) == w;
    assert |p.buffer| % w == 0 by {
      assert |p.buffer| == |t.elems| * w;
    }
  }

  /** The fallback is lossy: a tensor of an unsupported element type that
      numpy can hold (every one but bfloat16) is sent as UNKNOWN and read
      back as float32, so the round trip never returns it; at best it yields
      an empty float32 tensor. */
  lemma UnsupportedRoundTripLossy(t: Tensor, version: string)
    requires ValidTensor(t) && |t.shape| >= 2 && !IsSupported(t.dtype)
    requires t.dtype != BFloat16 && !t.requiresGrad
    ensures SerializeTensor(t, version).Ok?
    ensures SerializeTensor(t, version).value.tensorDef.dtype == Code(UNKNOWN)
    ensures DeserializeTensor(SerializeTensor(t, version).value) != Ok(t)
    ensures DeserializeTensor(SerializeTensor(t, version).value).Ok? ==>
              DeserializeTensor(SerializeTensor(t, version).value).value.dtype == Float32 &&
              DeserializeTensor(SerializeTensor(t, version).value).value.elems == []
  {
    var p := SerializeTensor(t, version).value;
    var r := DeserializeTensor(p);
    if r.Ok? {
      var n := |t.elems|;
      EncodeLength(t.elems, Width(t.dtype));
      assert BittensorToNp(p.tensorDef.dtype) == NpFloat32;
      DecodeCount(p.buffer, 4);
      assert |r.value.elems| == n;
      assert Width(t.dtype) <= 2;
      assert n * Width(t.dtype) <= 2 * n;
      assert n == 0;
    }
  }

  /** Python objects that may appear in a batch passed to `serialize`. */
  datatype PyObject = Str(s: string) | Image(handle: nat) | OtherObject(handle: nat)

  /** The argument of `serialize`: a torch tensor, a Python list, or anything
      else. */
  datatype PyValue = TensorValue(t: Tensor) | ListValue(items: seq<PyObject>) | OtherValue

  /** string_todef: one row per string, STRING, no gradients. */
  function StringToDef(items: seq<PyObject>, version: string): (d: TensorDef)
    ensures d.shape == [|items|, 1] && d.dtype == Code(STRING) && !d.requiresGrad && d.version == version
  {
    TensorDef(version, [|items|, 1], Code(STRING), false)
  }

  /** image_todef: one row per image, IMAGE, no gradients. */
  function ImageToDef(items: seq<PyObject>, version: string): (d: TensorDef)
    ensures d.shape == [|items|, 1] && d.dtype == Code(IMAGE) && !d.requiresGrad && d.version == version
  {
    TensorDef(version, [|items|, 1], Code(IMAGE), false)
  }

  /** serialize_string: the pickled list beside its STRING TensorDef. */
  function SerializeString(items: seq<PyObject>, version: string, dumps: seq<PyObject> -> seq<bv8>): (p: TensorProto)
    ensures p.buffer == dumps(items) && p.tensorDef == StringToDef(items, version) && p.version == version
  {
    TensorProto(version, dumps(items), StringToDef(items, version))
  }

  /** serialize_image: the pickled list beside its IMAGE TensorDef. */
  function SerializeImage(items: seq<PyObject>, version: string, dumps: seq<PyObject> -> seq<bv8>): (p: TensorProto)
    ensures p.buffer == dumps(items) && p.tensorDef == ImageToDef(items, version) && p.version == version
  {
    TensorProto(version, dumps(items), ImageToDef(items, version))
  }

  /** deserialize_string / deserialize_image: unpickle the buffer, whatever
      the TensorDef says. */
  function DeserializeBlob(p: TensorProto, loads: seq<bv8> -> Result<seq<PyObject>>): (r: Result<seq<PyObject>>)
    ensures r == loads(p.buffer)
  {
    loads(p.buffer)
  }

  /** The string and image paths round-trip exactly when unpickling inverts
      pickling on the batch. */
  lemma BlobRoundTrip(items: seq<PyObject>, version: string,
                      dumps: seq<PyObject> -> seq<bv8>, loads: seq<bv8> -> Result<seq<PyObject>>)
    requires loads(dumps(items)) == Ok(items)
    ensures DeserializeBlob(SerializeString(items, version, dumps), loads) == Ok(items)
    ensures DeserializeBlob(SerializeImage(items, version, dumps), loads) == Ok(items)
  {
  }

  /** serialize: a tensor goes to the numeric encoder; a list is dispatched on
      its first element only (an empty list fails indexing it): strings to
      the string path, images to the image path; anything else is not
      implemented. */
  function Serialize(v: PyValue, version: string, dumps: seq<PyObject> -> seq<bv8>): (r: Result<TensorProto>)
    ensures v.TensorValue? ==> r == SerializeTensor(v.t, version)
    ensures v.ListValue? && v.items == [] ==> r == Raise(IndexError)
    ensures v.ListValue? && v.items != [] && v.items[0].Str? ==>
              r.Ok? && r.value.tensorDef.dtype == Code(STRING) && r.value.tensorDef.shape == [|v.items|, 1]
              && r.value.buffer == dumps(v.items)
    ensures v.ListValue? && v.items != [] && v.items[0].Image? ==>
              r.Ok? && r.value.tensorDef.dtype == Code(IMAGE) && r.value.tensorDef.shape == [|v.items|, 1]
              && r.value.buffer == dumps(v.items)
    ensures v.ListValue? && v.items != [] && v.items[0].OtherObject? ==> r == Raise(NotImplementedError)
    ensures v.OtherValue? ==> r == Raise(NotImplementedError)
  {
    match v
    case TensorValue(t) => SerializeTensor(t, version)
    case ListValue(items) =>
      if |items| == 0 then Raise(IndexError)
      else if items[0].Str? then Ok(SerializeString(items, version, dumps))
      else if items[0].Image? then Ok(SerializeImage(items, version, dumps))
      else Raise(NotImplementedError)
    case OtherValue => Raise(NotImplementedError)
  }
}
