/**
 * Control-plane framing of the relay (relay-server/src/wire.rs): a 4-byte
 * big-endian length in front of a payload produced by a bounded codec.
 * The codec itself is abstract: encoding is given as its (possibly failed)
 * raw output, decoding as a function over the bytes it is handed.
 */
module Wire {
  import opened Base
  import opened Bytes
  import opened RelayError

  const BINCODE_BYTE_LIMIT: nat := 16 * 1024

  /** Outcome of `deserialise`: a value, an error, or a panic of the slice. */
  datatype Decoded<T> = Decoded(value: T) | Failed(error: Error) | Panicked

  /** The codec's byte limit applied to what the serde encoder produced. */
  function BincodeSerialize(raw: Result<seq<Byte>, BincodeFailure>): (r: Result<seq<Byte>, BincodeFailure>)
    ensures r.Ok? <==> raw.Ok? && |raw.value| <= BINCODE_BYTE_LIMIT
    ensures r.Ok? ==> r.value == raw.value
    ensures raw.Ok? && |raw.value| > BINCODE_BYTE_LIMIT ==> r == Err(SizeLimit)
  {
    match raw
    case Err(e) => Err(e)
    case Ok(data) => if |data| > BINCODE_BYTE_LIMIT then Err(SizeLimit) else Ok(data)
  }

  /** `serialise`: length prefix (`data.len() as u32`, big-endian) then the payload. */
  function Serialise(raw: Result<seq<Byte>, BincodeFailure>): (r: Result<seq<Byte>, Error>)
    ensures r.Ok? <==> raw.Ok? && |raw.value| <= BINCODE_BYTE_LIMIT
    ensures r.Ok? ==> r.value == BeU32(|raw.value|) + raw.value
    ensures r.Ok? ==> |r.value| == 4 + |raw.value|
    ensures r.Err? ==> r.error.BincodeError?
  {
    match BincodeSerialize(raw)
    case Err(e) => Err(BincodeError(e))
    case Ok(data) => Ok(BeU32(TruncateU32(|data|)) + data)
  }

  function Lift<T>(r: Result<T, BincodeFailure>): Decoded<T>
  {
    match r
    case Ok(v) => Decoded(v)
    case Err(e) => Failed(BincodeError(e))
  }

  /**
   * `deserialise` as written: the codec is handed `data[4..len]`, which is
   * out of range (a panic) unless 4 <= len <= |data|.
   */
  function Deserialise<T>(decode: seq<Byte> -> Result<T, BincodeFailure>, data: seq<Byte>): (r: Decoded<T>)
    ensures |data| < 4 <==> r == Failed(InsufficientLenBytes)
    ensures r.Panicked? <==> |data| >= 4 && !(4 <= FromBeU32(data[..4]) <= |data|)
    ensures !r.Panicked? && |data| >= 4 ==> r == Lift(decode(data[4..FromBeU32(data[..4])]))
  {
    if |data| < 4 then Failed(InsufficientLenBytes)
    else
      var len := FromBeU32(data[..4]);
      if 4 <= len <= |data| then Lift(decode(data[4..len])) else Panicked
  }

  /** The length read back from a frame is the payload's length. */
  lemma FrameLength(raw: Result<seq<Byte>, BincodeFailure>)
    requires Serialise(raw).Ok?
    ensures FromBeU32(Serialise(raw).value[..4]) == |raw.value|
  {
    var frame := Serialise(raw).value;
    assert frame[..4] == BeU32(|raw.value|);
    BeU32RoundTrip(|raw.value|);
  }

  /**
   * What `deserialise` does with a frame `serialise` produced: a payload
   * shorter than 4 bytes panics, a longer one reaches the codec without its
   * last four bytes.
   */
  lemma DeserialiseOfFrame<T>(decode: seq<Byte> -> Result<T, BincodeFailure>, raw: Result<seq<Byte>, BincodeFailure>)
    requires Serialise(raw).Ok?
    ensures var p := raw.value;
      Deserialise(decode, Serialise(raw).value) ==
        if |p| < 4 then Panicked else Lift(decode(p[..|p| - 4]))
  {
    var p := raw.value;
    var frame := Serialise(raw).value;
    FrameLength(raw);
    if |p| >= 4 {
      assert frame[4..|p|] == p[..|p| - 4];
    }
  }

  /**
   * A concrete frame on which the round trip fails: with the identity codec
   * the 5-byte payload [1, 2, 3, 4, 5] comes back as [1].
   */
  lemma DeserialiseLosesPayload()
    ensures var decode := (s: seq<Byte>) => Ok(s);
      var raw: Result<seq<Byte>, BincodeFailure> := Ok([1, 2, 3, 4, 5]);
      Serialise(raw).Ok? &&
      Deserialise(decode, Serialise(raw).value) == Decoded([1]) &&
      Deserialise(decode, Serialise(raw).value) != Decoded(raw.value)
  {
    var decode := (s: seq<Byte>) => Ok(s);
    var raw: Result<seq<Byte>, BincodeFailure> := Ok([1, 2, 3, 4, 5]);
    DeserialiseOfFrame(decode, raw);
    assert raw.value[..|raw.value| - 4] == [1];
    assert decode([1]) == Ok([1]);
  }

  /**
   * The evidently intended decoder: the codec is handed exactly the `len`
   * bytes after the prefix, and a buffer that ends early is reported as
   * `InsufficientLenBytes` instead of panicking.
   */
  function DeserialiseFramed<T>(decode: seq<Byte> -> Result<T, BincodeFailure>, data: seq<Byte>): (r: Decoded<T>)
    ensures !r.Panicked?
    ensures |data| < 4 ==> r == Failed(InsufficientLenBytes)
    ensures |data| >= 4 && 4 + FromBeU32(data[..4]) <= |data| ==>
      r == Lift(decode(data[4..4 + FromBeU32(data[..4])]))
  {
    if |data| < 4 then Failed(InsufficientLenBytes)
    else
      var len := FromBeU32(data[..4]);
      if 4 + len <= |data| then Lift(decode(data[4..4 + len])) else Failed(InsufficientLenBytes)
  }

  /** Round trip of the corrected decoder: whatever the codec decodes from the payload comes back. */
  lemma DeserialiseFramedRoundTrip<T>(decode: seq<Byte> -> Result<T, BincodeFailure>, raw: Result<seq<Byte>, BincodeFailure>, trailing: seq<Byte>)
    requires Serialise(raw).Ok?
    ensures DeserialiseFramed(decode, Serialise(raw).value + trailing) == Lift(decode(raw.value))
  {
    var p := raw.value;
    var frame := Serialise(raw).value;
    var data := frame + trailing;
    FrameLength(raw);
    assert data[..4] == frame[..4];
    assert data[4..4 + |p|] == p;
  }
}
