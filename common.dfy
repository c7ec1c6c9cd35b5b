// Shared vocabulary of the libvsmbr model: fixed-width integers, the
// libcerror error value, Result/Option, and little-endian byte decoding.

module Common {

  type uint8 = x: int | 0 <= x < 0x100
  type uint16 = x: int | 0 <= x < 0x1_0000
  type uint32 = x: int | 0 <= x < 0x1_0000_0000

  /** SSIZE_MAX of a 64-bit platform. */
  const SsizeMax: int := 0x7FFF_FFFF_FFFF_FFFF

  /** The libcerror error domains (include/libvsmbr/error.h). */
  datatype Domain = Arguments | Conversion | Compression | Io | Input | Memory | Output | Runtime

  /** The libcerror error codes that the modelled functions raise. */
  datatype Code =
    | InvalidValue | ValueTooSmall | ValueExceedsMaximum | ValueOutOfBounds | UnsupportedValue
    | ValueMissing | ValueAlreadySet | GetFailed | InitializeFailed
    | OpenFailed | CloseFailed | SeekFailed | ReadFailed

  /** The error a function reports: the domain and code it sets itself. */
  datatype Error = Error(domain: Domain, code: Code)

  datatype Result<T> = Ok(value: T) | Err(error: Error)

  datatype Option<T> = None | Some(value: T)

  /** A `T **` argument of an initialize or free function: a NULL pointer,
      or a pointer to a `T *` that is either NULL (None) or set (Some). */
  datatype Slot<T> = NullSlot | Slot(target: Option<T>)

  /** The common shape of every `*_initialize`: a NULL argument and an
      already set target are refused, otherwise the target is set. */
  function Allocate<T>(slot: Slot<T>, initial: T): (r: Result<Slot<T>>)
    ensures slot.NullSlot? ==> r == Err(Error(Arguments, InvalidValue))
    ensures slot.Slot? && slot.target.Some? ==> r == Err(Error(Runtime, ValueAlreadySet))
    ensures r.Ok? <==> slot == Slot(None)
    ensures r.Ok? ==> r.value == Slot(Some(initial))
  {
    match slot
    case NullSlot => Err(Error(Arguments, InvalidValue))
    case Slot(Some(_)) => Err(Error(Runtime, ValueAlreadySet))
    case Slot(None) => Ok(Slot(Some(initial)))
  }

  /** The common shape of every `*_free`: a NULL argument is refused,
      otherwise the target is released and set to NULL; freeing a NULL
      target succeeds and does nothing. */
  function Release<T>(slot: Slot<T>): (r: Result<Slot<T>>)
    ensures slot.NullSlot? <==> r.Err?
    ensures r.Err? ==> r.error == Error(Arguments, InvalidValue)
    ensures r.Ok? ==> r.value == Slot(None)
  {
    match slot
    case NullSlot => Err(Error(Arguments, InvalidValue))
    case Slot(_) => Ok(Slot(None))
  }

  /** Freeing is idempotent, and a freed slot can be initialized again. */
  lemma ReleaseThenAllocate<T>(slot: Slot<T>, initial: T)
    requires slot.Slot?
    ensures Release(slot).Ok? && Release(Release(slot).value) == Release(slot)
    ensures Allocate(Release(slot).value, initial) == Ok(Slot(Some(initial)))
  {
  }

  /** byte_stream_copy_to_uint32_little_endian over four bytes. */
  function LittleEndian32(b: seq<uint8>): (v: uint32)
    requires |b| == 4
  {
    b[0] as int + 0x100 * b[1] as int + 0x1_0000 * b[2] as int + 0x100_0000 * b[3] as int
  }

  /** The four little-endian bytes of a 32-bit value. */
  function LittleEndianBytes32(v: uint32): (b: seq<uint8>)
    ensures |b| == 4
  {
    [v % 0x100, (v / 0x100) % 0x100, (v / 0x1_0000) % 0x100, v / 0x100_0000]
  }

  /** Encoding then decoding a 32-bit value gives it back. */
  lemma LittleEndian32OfBytes(v: uint32)
    ensures LittleEndian32(LittleEndianBytes32(v)) == v
  {
    var b := LittleEndianBytes32(v);
    assert v == b[0] + 0x100 * (v / 0x100);
    assert v / 0x100 == b[1] + 0x100 * (v / 0x1_0000);
    assert v / 0x1_0000 == b[2] + 0x100 * (v / 0x100_0000);
  }

  /** Decoding then encoding four bytes gives them back: the decoding is injective. */
  lemma BytesOfLittleEndian32(b: seq<uint8>)
    requires |b| == 4
    ensures LittleEndianBytes32(LittleEndian32(b)) == b
  {
    var v := LittleEndian32(b);
    assert v / 0x100 == b[1] as int + 0x100 * b[2] as int + 0x1_0000 * b[3] as int;
    assert v / 0x1_0000 == b[2] as int + 0x100 * b[3] as int;
    assert v / 0x100_0000 == b[3];
  }
}
