// libvsmbr_sector_data.c: a buffer of `data_size` bytes that is filled by
// one read from a file IO handle and wiped when it is freed.

module SectorData {
  import opened Common
  import opened Definitions
  import opened FileIo

  class SectorData {
    var data: array<uint8>
    var dataSize: nat

    predicate Valid()
      reads this
    {
      data.Length == dataSize
    }

    constructor (dataSize: nat)
      ensures Valid() && this.dataSize == dataSize && fresh(data)
    {
      data := new uint8[dataSize](_ => 0);
      this.dataSize := dataSize;
    }

    /** libvsmbr_sector_data_read_file_io_handle: a data size of 0 or above
        SSIZE_MAX is refused; otherwise exactly `dataSize` bytes must be
        read at `sectorOffset` from an open handle, and they fill the
        buffer; reading from a handle that is not open fails. */
    method ReadFileIoHandle(handle: FileIoHandle, sectorOffset: int) returns (r: Result<()>)
      requires Valid()
      modifies data
      ensures (dataSize == 0 || dataSize > SsizeMax) ==> r == Err(Error(Runtime, ValueOutOfBounds))
      ensures 0 < dataSize <= SsizeMax ==>
                (r.Ok? <==> handle.isOpen && 0 <= sectorOffset && sectorOffset + dataSize <= |handle.bytes|)
      ensures 0 < dataSize <= SsizeMax && r.Err? ==> r.error == Error(Io, ReadFailed)
      ensures r.Ok? ==> data[..] == handle.bytes[sectorOffset..sectorOffset + dataSize]
      ensures r.Err? ==> data[..] == old(data[..])
    {
      if dataSize == 0 || dataSize > SsizeMax {
        return Err(Error(Runtime, ValueOutOfBounds));
      }
      if !handle.isOpen {
        return Err(Error(Io, ReadFailed));
      }
      var read := ReadAt(handle.bytes, sectorOffset, dataSize);
      if read.Err? || |read.value| != dataSize {
        return Err(Error(Io, ReadFailed));
      }
      var bytes := read.value;
      for i := 0 to dataSize
        invariant data[..i] == bytes[..i]
      {
        data[i] := bytes[i];
      }
      assert data[..] == data[..dataSize];
      return Ok(());
    }

    /** The zero-fill that free performs before releasing the buffer. */
    method Wipe()
      requires Valid()
      modifies data
      ensures forall i :: 0 <= i < data.Length ==> data[i] == 0
    {
      for i := 0 to dataSize
        invariant forall j :: 0 <= j < i ==> data[j] == 0
      {
        data[i] := 0;
      }
    }
  }

  /** libvsmbr_sector_data_initialize: a NULL argument, an already set
      target, and a data size of 0 or above MEMORY_MAXIMUM_ALLOCATION_SIZE
      are refused, in that order; otherwise the target holds a buffer of
      exactly `dataSize` bytes. */
  method Initialize(sectorData: Slot<SectorData>, dataSize: nat) returns (r: Result<Slot<SectorData>>)
    ensures sectorData.NullSlot? ==> r == Err(Error(Arguments, InvalidValue))
    ensures sectorData.Slot? && sectorData.target.Some? ==> r == Err(Error(Runtime, ValueAlreadySet))
    ensures sectorData == Slot(None) && (dataSize == 0 || dataSize > MemoryMaximumAllocationSize) ==>
              r == Err(Error(Arguments, ValueOutOfBounds))
    ensures r.Ok? <==> sectorData == Slot(None) && 0 < dataSize <= MemoryMaximumAllocationSize
    ensures r.Ok? ==> r.value.Slot? && r.value.target.Some? && fresh(r.value.target.value) && fresh(r.value.target.value.data)
                      && r.value.target.value.Valid() && r.value.target.value.dataSize == dataSize
  {
    if sectorData.NullSlot? {
      return Err(Error(Arguments, InvalidValue));
    }
    if sectorData.target.Some? {
      return Err(Error(Runtime, ValueAlreadySet));
    }
    if dataSize == 0 || dataSize > MemoryMaximumAllocationSize {
      return Err(Error(Arguments, ValueOutOfBounds));
    }
    var created := new SectorData(dataSize);
    return Ok(Slot(Some(created)));
  }

  /** libvsmbr_sector_data_free: a NULL argument is refused; a set target
      has its buffer zeroed, is released and set to NULL; a NULL target is
      accepted. */
  method Free(sectorData: Slot<SectorData>) returns (r: Result<Slot<SectorData>>)
    requires sectorData.Slot? && sectorData.target.Some? ==> sectorData.target.value.Valid()
    modifies if sectorData.Slot? && sectorData.target.Some? then {sectorData.target.value.data} else {}
    ensures sectorData.NullSlot? <==> r == Err(Error(Arguments, InvalidValue))
    ensures sectorData.Slot? ==> r == Ok(Slot(None))
    ensures sectorData.Slot? && sectorData.target.Some? ==>
              forall i :: 0 <= i < sectorData.target.value.data.Length ==> sectorData.target.value.data[i] == 0
  {
    if sectorData.NullSlot? {
      return Err(Error(Arguments, InvalidValue));
    }
    if sectorData.target.Some? {
      sectorData.target.value.Wipe();
    }
    return Ok(Slot(None));
  }

  /** A buffer sized for one boot record reads exactly when the handle is
      open and the sector is wholly inside the source, and then holds its
      512 bytes. */
  method ReadBootSector(handle: FileIoHandle, offset: int) returns (r: Result<seq<uint8>>)
    ensures r.Ok? <==> handle.isOpen && 0 <= offset && offset + 512 <= |handle.bytes|
    ensures r.Ok? ==> r.value == handle.bytes[offset..offset + 512]
  {
    var created := Initialize(Slot(None), 512);
    var sectorData := created.value.target.value;
    var read := sectorData.ReadFileIoHandle(handle, offset);
    if read.Err? {
      return Err(read.error);
    }
    return Ok(sectorData.data[..]);
  }
}
