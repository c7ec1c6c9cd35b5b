// libvsmbr_support.c: the access-flag getters and the volume signature
// probe, which reads the first sector of a file IO handle and looks for the
// boot signature and for file-system names in the boot code (with the
// hand-written substring search memmemcmp).

module Support {
  import opened Common
  import opened Definitions
  import opened FileIo
  import BR = BootRecord

  /** libvsmbr_get_access_flags_read. */
  function GetAccessFlagsRead(): (flags: bv32)
    ensures flags & AccessFlagRead != 0 && flags & AccessFlagWrite == 0
  {
    AccessFlagRead
  }

  /** libvsmbr_get_access_flags_write. */
  function GetAccessFlagsWrite(): (flags: bv32)
    ensures flags & AccessFlagWrite != 0 && flags & AccessFlagRead == 0
  {
    AccessFlagWrite
  }

  /** libvsmbr_get_access_flags_read_write: both of the above. */
  function GetAccessFlagsReadWrite(): (flags: bv32)
    ensures flags == GetAccessFlagsRead() | GetAccessFlagsWrite()
    ensures flags & AccessFlagRead != 0 && flags & AccessFlagWrite != 0
  {
    AccessFlagRead | AccessFlagWrite
  }

  /** The bytes of `needle` occur in `haystack` starting at position i. */
  predicate MatchesAt(haystack: seq<uint8>, needle: seq<uint8>, i: int) {
    0 <= i && i + |needle| <= |haystack| && haystack[i..i + |needle|] == needle
  }

  /** The first position, from `start` on, at which `needle` occurs in `haystack`. */
  function FirstMatchFrom(haystack: seq<uint8>, needle: seq<uint8>, start: nat): (r: Option<nat>)
    ensures r.Some? ==> start <= r.value && MatchesAt(haystack, needle, r.value)
    ensures forall j :: start <= j && (r.None? || j < r.value) ==> !MatchesAt(haystack, needle, j)
    decreases |haystack| - start
  {
    if start + |needle| > |haystack| then None
    else if haystack[start..start + |needle|] == needle then Some(start)
    else FirstMatchFrom(haystack, needle, start + 1)
  }

  /** What memmemcmp promises: NULL for a NULL or empty buffer or needle,
      otherwise the first occurrence of the needle that lies wholly inside
      the first `srcLen` bytes of the buffer. */
  function MemMem(src: Option<seq<uint8>>, srcLen: nat, need: Option<seq<uint8>>, needLen: nat): (r: Option<nat>)
    requires src.Some? ==> srcLen <= |src.value|
    requires need.Some? ==> needLen <= |need.value|
    ensures (src.None? || srcLen == 0 || need.None? || needLen == 0) ==> r.None?
    ensures r.Some? ==> MatchesAt(src.value[..srcLen], need.value[..needLen], r.value)
    ensures r.Some? ==> forall j :: 0 <= j < r.value ==> !MatchesAt(src.value[..srcLen], need.value[..needLen], j)
    ensures (src.Some? && srcLen > 0 && need.Some? && needLen > 0 && r.None?) ==>
              forall j :: !MatchesAt(src.value[..srcLen], need.value[..needLen], j)
  {
    if src.None? || srcLen == 0 || need.None? || needLen == 0 then None
    else FirstMatchFrom(src.value[..srcLen], need.value[..needLen], 0)
  }

  /** memmemcmp: the pointer `h` walks the buffer while at least `needLen`
      bytes remain, comparing `needLen` bytes at each position. */
  method MemMemCmp(src: Option<seq<uint8>>, srcLen: nat, need: Option<seq<uint8>>, needLen: nat) returns (r: Option<nat>)
    requires src.Some? ==> srcLen <= |src.value|
    requires need.Some? ==> needLen <= |need.value|
    ensures r == MemMem(src, srcLen, need, needLen)
  {
    if src.None? || srcLen == 0 || need.None? || needLen == 0 {
      return None;
    }
    ghost var haystack := src.value[..srcLen];
    ghost var needle := need.value[..needLen];
    var h: nat := 0;
    var remaining := srcLen;
    while needLen <= remaining
      invariant h + remaining == srcLen
      invariant FirstMatchFrom(haystack, needle, h) == FirstMatchFrom(haystack, needle, 0)
      decreases remaining
    {
      if src.value[h..h + needLen] == need.value[..needLen] {
        assert haystack[h..h + needLen] == needle;
        return Some(h);
      }
      assert haystack[h..h + needLen] != needle;
      h := h + 1;
      remaining := remaining - 1;
    }
    return None;
  }

  /** The two file-system names the probe looks for in the boot code. */
  const NtfsSignature: seq<uint8> := [0x4e, 0x54, 0x46, 0x53] // "NTFS"
  const FatSignature: seq<uint8> := [0x46, 0x41, 0x54] // "FAT"
  const BootCodeSize: nat := 446

  /** A sector is taken for a master boot record when it ends in 0x55 0xaa
      and neither "NTFS" nor "FAT" occurs anywhere in its first 446 bytes. */
  predicate IsVolumeSignature(sector: seq<uint8>): (b: bool)
    requires |sector| == 512
    ensures b ==> BR.HasBootSignature(sector)
  {
    sector[510] == 0x55 && sector[511] == 0xaa
    && (forall i :: 0 <= i < BootCodeSize ==> !MatchesAt(sector[..BootCodeSize], NtfsSignature, i))
    && (forall i :: 0 <= i < BootCodeSize ==> !MatchesAt(sector[..BootCodeSize], FatSignature, i))
  }

  /** The answer of the probe for a handle it can read: a read error when
      the source is shorter than one sector, otherwise the predicate above
      on the first 512 bytes. */
  function SignatureOf(bytes: seq<uint8>): (r: Result<bool>)
    ensures r.Err? <==> |bytes| < 512
    ensures r.Err? ==> r.error == Error(Io, ReadFailed)
    ensures r.Ok? ==> r.value == IsVolumeSignature(bytes[..512])
  {
    if |bytes| < 512 then Err(Error(Io, ReadFailed)) else Ok(IsVolumeSignature(bytes[..512]))
  }

  /** No match by memmemcmp is the same as no occurrence in the boot code. */
  lemma MemMemNone(sector: seq<uint8>, needle: seq<uint8>)
    requires |sector| == 512 && 0 < |needle| <= BootCodeSize
    ensures MemMem(Some(sector), BootCodeSize, Some(needle), |needle|).None?
            <==> forall i :: 0 <= i < BootCodeSize ==> !MatchesAt(sector[..BootCodeSize], needle, i)
  {
    assert needle[..|needle|] == needle;
  }

  /** libvsmbr_check_volume_signature_file_io_handle: a handle that is not
      open is opened for the read and closed again, on success and on
      error alike; 1, 0 and -1 are Ok(true), Ok(false) and an error. */
  method CheckVolumeSignatureFileIoHandle(handle: FileIoHandle?) returns (r: Result<bool>)
    modifies handle
    ensures handle == null ==> r == Err(Error(Arguments, InvalidValue))
    ensures handle != null ==> handle.isOpen == old(handle.isOpen)
    ensures handle != null && !old(handle.isOpen) && !handle.openable ==> r == Err(Error(Io, OpenFailed))
    ensures handle != null && (old(handle.isOpen) || handle.openable) ==> r == SignatureOf(handle.bytes)
  {
    if handle == null {
      return Err(Error(Arguments, InvalidValue));
    }
    var isOpen := handle.isOpen;
    if !isOpen {
      var openResult := handle.Open();
      if openResult.Err? {
        handle.Close();
        return Err(Error(Io, OpenFailed));
      }
    }
    var read := ReadAt(handle.bytes, 0, 512);
    if read.Err? || |read.value| != 512 {
      if !isOpen {
        handle.Close();
      }
      return Err(Error(Io, ReadFailed));
    }
    var signature := read.value;
    assert signature == handle.bytes[..512];
    if !isOpen {
      handle.Close();
    }
    if signature[510] == 0x55 && signature[511] == 0xaa {
      var ntfs := MemMemCmp(Some(signature), BootCodeSize, Some(NtfsSignature), |NtfsSignature|);
      MemMemNone(signature, NtfsSignature);
      if ntfs.None? {
        var fat := MemMemCmp(Some(signature), BootCodeSize, Some(FatSignature), |FatSignature|);
        MemMemNone(signature, FatSignature);
        if fat.None? {
          return Ok(true);
        }
      }
    }
    return Ok(false);
  }

  /** libvsmbr_check_volume_signature: a missing or empty filename is
      refused; otherwise a new file IO handle on the named file (whose
      contents, and whether it can be opened, are the parameters) is
      checked, and a failed check is reported as a get failure. */
  method CheckVolumeSignature(filename: Option<string>, contents: seq<uint8>, openable: bool) returns (r: Result<bool>)
    ensures filename.None? || |filename.value| == 0 ==> r == Err(Error(Arguments, InvalidValue))
    ensures filename.Some? && |filename.value| > 0 && !openable ==> r == Err(Error(Runtime, GetFailed))
    ensures filename.Some? && |filename.value| > 0 && openable ==>
              r == (if |contents| < 512 then Err(Error(Runtime, GetFailed)) else SignatureOf(contents))
  {
    if filename.None? || |filename.value| == 0 {
      return Err(Error(Arguments, InvalidValue));
    }
    var handle := new FileIoHandle(contents, openable, false);
    var result := CheckVolumeSignatureFileIoHandle(handle);
    if result.Err? {
      return Err(Error(Runtime, GetFailed));
    }
    return result;
  }

  /** Every sector the probe accepts is one that libvsmbr_boot_record_read_data
      accepts, so a volume that passes the probe has a readable master boot
      record; the converse does not hold, since the probe also refuses
      boot code that names NTFS or FAT. */
  lemma AcceptedSignatureReads(bytes: seq<uint8>)
    requires SignatureOf(bytes) == Ok(true)
    ensures BR.ReadBootRecord(bytes, 0).Ok?
  {
    assert bytes[0..BR.BootRecordSize] == bytes[..512];
  }

  /** A sector whose boot code contains "NTFS" is refused even with a valid
      boot signature and a valid partition table. */
  lemma NtfsBootCodeRefused(bytes: seq<uint8>, i: nat)
    requires 512 <= |bytes| && i + 4 <= BootCodeSize && bytes[i..i + 4] == NtfsSignature
    ensures SignatureOf(bytes) == Ok(false)
  {
    var bootCode := bytes[..512][..BootCodeSize];
    assert bootCode == bytes[..BootCodeSize];
    assert bootCode[i..i + 4] == bytes[i..i + 4];
    assert MatchesAt(bootCode, NtfsSignature, i);
  }

  /** The probe reads only the first sector of the source. */
  lemma SignatureReadsFirstSector(a: seq<uint8>, b: seq<uint8>)
    requires 512 <= |a| && 512 <= |b| && a[..512] == b[..512]
    ensures SignatureOf(a) == SignatureOf(b)
  {
  }
}
