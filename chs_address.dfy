// libvsmbr_chs_address.c: unpacking a 24-bit cylinder-head-sector address.
//
// The code splits the 24-bit value as head = bits 0-7, sector = bits 8-13,
// cylinder = bits 14-23. This is not the conventional on-disk CHS packing
// (where the top two bits of the second byte are cylinder bits 8-9); the
// model follows the code.

module ChsAddress {
  import opened Common

  /** LIBVSMBR_ENDIAN_BIG and LIBVSMBR_ENDIAN_LITTLE ('b' and 'l'). */
  const EndianBig: uint8 := 0x62
  const EndianLittle: uint8 := 0x6c

  datatype ChsAddress = ChsAddress(cylinder: uint16, head: uint8, sector: uint8)

  /** The 24-bit value of the first three bytes of the stream in the given byte order. */
  function Value24(stream: seq<uint8>, byteOrder: uint8): (v: int)
    requires |stream| >= 3
    ensures 0 <= v < 0x100_0000
  {
    if byteOrder == EndianLittle then
      stream[0] as int + 0x100 * stream[1] as int + 0x1_0000 * stream[2] as int
    else
      0x1_0000 * stream[0] as int + 0x100 * stream[1] as int + stream[2] as int
  }

  /** Head, sector and cylinder by masking and shifting the value. */
  function Split(v: int): (a: ChsAddress)
    requires 0 <= v < 0x100_0000
    ensures a.sector < 0x40 && a.cylinder < 0x400
  {
    var head := v % 0x100;
    var rest := v / 0x100;
    var sector := rest % 0x40;
    var rest' := rest / 0x40;
    ChsAddress(rest' % 0x400, head, sector)
  }

  /** libvsmbr_chs_address_copy_from_byte_stream. */
  function CopyFromByteStream(stream: seq<uint8>, byteOrder: uint8): (r: Result<ChsAddress>)
    ensures |stream| < 3 ==> r == Err(Error(Arguments, ValueTooSmall))
    ensures |stream| > SsizeMax ==> r == Err(Error(Arguments, ValueExceedsMaximum))
    ensures 3 <= |stream| <= SsizeMax && byteOrder != EndianBig && byteOrder != EndianLittle
            ==> r == Err(Error(Arguments, UnsupportedValue))
    ensures r.Ok? <==> 3 <= |stream| <= SsizeMax && (byteOrder == EndianBig || byteOrder == EndianLittle)
    ensures r.Ok? ==> r.value.head <= 255 && r.value.sector <= 63 && r.value.cylinder <= 1023
  {
    if |stream| < 3 then Err(Error(Arguments, ValueTooSmall))
    else if |stream| > SsizeMax then Err(Error(Arguments, ValueExceedsMaximum))
    else if byteOrder != EndianBig && byteOrder != EndianLittle then Err(Error(Arguments, UnsupportedValue))
    else Ok(Split(Value24(stream, byteOrder)))
  }

  /** The value the three fields stand for, read back. */
  function Combine(a: ChsAddress): (v: int)
    ensures 0 <= v
    ensures a.sector < 0x40 && a.cylinder < 0x400 ==> v < 0x100_0000
  {
    a.head as int + 0x100 * a.sector as int + 0x4000 * a.cylinder as int
  }

  /** The split loses nothing: every 24-bit value is head + 256 sector + 16384 cylinder. */
  lemma SplitIsLossless(v: int)
    requires 0 <= v < 0x100_0000
    ensures Combine(Split(v)) == v
  {
    var rest := v / 0x100;
    assert v == v % 0x100 + 0x100 * rest;
    assert rest == rest % 0x40 + 0x40 * (rest / 0x40);
    assert rest / 0x40 < 0x400;
  }

  /** Conversely, every address within the field bounds is the split of its value. */
  lemma CombineIsLossless(a: ChsAddress)
    requires a.sector < 0x40 && a.cylinder < 0x400
    ensures 0 <= Combine(a) < 0x100_0000 && Split(Combine(a)) == a
  {
    var v := Combine(a);
    assert v / 0x100 == a.sector as int + 0x40 * a.cylinder as int;
    assert (v / 0x100) / 0x40 == a.cylinder;
  }

  /** Only the first three bytes of the stream are read. */
  lemma OnlyFirstThreeBytes(s: seq<uint8>, t: seq<uint8>, byteOrder: uint8)
    requires 3 <= |s| <= SsizeMax && 3 <= |t| <= SsizeMax && s[..3] == t[..3]
    ensures CopyFromByteStream(s, byteOrder) == CopyFromByteStream(t, byteOrder)
  {
    assert s[0] == t[0] && s[1] == t[1] && s[2] == t[2] by {
      assert s[..3][0] == s[0] && s[..3][1] == s[1] && s[..3][2] == s[2];
    }
  }

  /** Big endian is little endian on the reversed bytes. */
  lemma BigEndianIsReversedLittle(b0: uint8, b1: uint8, b2: uint8)
    ensures CopyFromByteStream([b0, b1, b2], EndianBig) == CopyFromByteStream([b2, b1, b0], EndianLittle)
  {
  }

  /** A little-endian stream decodes to the fields as stated: head is byte 0,
      sector the low six bits of byte 1, cylinder the top two bits of byte 1
      and byte 2 shifted up by two. */
  lemma LittleEndianFields(b0: uint8, b1: uint8, b2: uint8)
    ensures CopyFromByteStream([b0, b1, b2], EndianLittle)
            == Ok(ChsAddress(b1 as int / 0x40 + 4 * b2 as int, b0, b1 as int % 0x40))
  {
    var v := Value24([b0, b1, b2], EndianLittle);
    assert v / 0x100 == b1 as int + 0x100 * b2 as int;
    assert (v / 0x100) % 0x40 == b1 as int % 0x40;
    assert (v / 0x100) / 0x40 == b1 as int / 0x40 + 4 * b2 as int;
  }
}
