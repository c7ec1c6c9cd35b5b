// libvsmbr_partition.c: a partition handle. The source allocates and frees
// it; its seek and read operations are fixed only by what the library's
// tests require of them: a cursor over a region of `size` bytes that starts
// at `partitionOffset` in the file IO handle, which seeks may move anywhere
// at or past 0 (also past the end) and which reads clamp to the region and
// advance.

module Partition {
  import opened Common
  import opened FileIo
  import PV = PartitionValues

  /** The whence values of lseek: SEEK_SET, SEEK_CUR and SEEK_END. */
  const SeekSet: int := 0
  const SeekCur: int := 1
  const SeekEnd: int := 2

  /** Where a seek from `current` in a region of `size` bytes lands. */
  function SeekTarget(size: int, current: int, offset: int, whence: int): (r: Result<int>)
    ensures r.Ok? ==> r.value >= 0
    ensures whence != SeekSet && whence != SeekCur && whence != SeekEnd ==> r == Err(Error(Arguments, UnsupportedValue))
  {
    if whence != SeekSet && whence != SeekCur && whence != SeekEnd then Err(Error(Arguments, UnsupportedValue))
    else
      var target := if whence == SeekSet then offset else if whence == SeekCur then current + offset else size + offset;
      if target < 0 then Err(Error(Arguments, ValueOutOfBounds)) else Ok(target)
  }

  /** How many bytes a read of `request` bytes at `current` returns: none at
      or past the end of the region, otherwise up to its end. */
  function ReadCount(size: int, current: int, request: nat): (n: nat)
    ensures n <= request
    ensures current >= size ==> n == 0
    ensures current < size ==> n == if request <= size - current then request else size - current
  {
    if current >= size then 0
    else if request <= size - current then request
    else size - current
  }

  class Partition {
    var fileIoHandle: FileIoHandle?
    /** Offset of the region in the file IO handle, and its size in bytes. */
    var partitionOffset: int
    var size: int
    /** The cursor, relative to the start of the region. */
    var currentOffset: int

    predicate Valid()
      reads this
    {
      currentOffset >= 0
    }

    /** A partition on `fileIoHandle` for the region `values` describes, with
        the cursor at its start. */
    constructor (fileIoHandle: FileIoHandle?, values: PV.PartitionValues)
      ensures Valid()
      ensures this.fileIoHandle == fileIoHandle && partitionOffset == values.offset && size == values.size
      ensures currentOffset == 0
    {
      this.fileIoHandle := fileIoHandle;
      partitionOffset := values.offset;
      size := values.size;
      currentOffset := 0;
    }

    /** libvsmbr_internal_partition_seek_offset: an unknown whence and a
        target before the start are refused and leave the cursor alone;
        otherwise the cursor moves to the target, which is returned. */
    method SeekOffset(offset: int, whence: int) returns (r: Result<int>)
      modifies this
      ensures r == SeekTarget(old(size), old(currentOffset), offset, whence)
      ensures r.Ok? ==> currentOffset == r.value
      ensures r.Err? ==> currentOffset == old(currentOffset)
      ensures old(Valid()) ==> Valid()
      ensures fileIoHandle == old(fileIoHandle) && partitionOffset == old(partitionOffset) && size == old(size)
    {
      if whence != SeekSet && whence != SeekCur && whence != SeekEnd {
        return Err(Error(Arguments, UnsupportedValue));
      }
      var target := offset;
      if whence == SeekCur {
        target := currentOffset + offset;
      } else if whence == SeekEnd {
        target := size + offset;
      }
      if target < 0 {
        return Err(Error(Arguments, ValueOutOfBounds));
      }
      currentOffset := target;
      return Ok(target);
    }

    /** libvsmbr_internal_partition_read_buffer_from_file_io_handle: a
        missing buffer and a size above SSIZE_MAX are refused; otherwise the
        bytes from the cursor up to `size` of them or the end of the region
        are read from `handle`, and the cursor advances past them. A read
        from a missing or closed handle, or one the handle cannot complete,
        fails and leaves the cursor alone. */
    method ReadBufferFromFileIoHandle(handle: FileIoHandle?, bufferGiven: bool, request: nat)
      returns (r: Result<seq<uint8>>)
      modifies this
      ensures !bufferGiven ==> r == Err(Error(Arguments, InvalidValue))
      ensures bufferGiven && request > SsizeMax ==> r == Err(Error(Arguments, ValueExceedsMaximum))
      ensures r.Ok? ==> |r.value| == ReadCount(old(size), old(currentOffset), request)
      ensures r.Ok? ==> currentOffset == old(currentOffset) + |r.value|
      ensures r.Ok? && |r.value| > 0 ==>
                (handle != null && handle.isOpen && 0 <= partitionOffset + old(currentOffset)
                 && partitionOffset + currentOffset <= |handle.bytes|
                 && r.value == handle.bytes[partitionOffset + old(currentOffset)..partitionOffset + currentOffset])
      ensures r.Err? ==> currentOffset == old(currentOffset)
      ensures (bufferGiven && request <= SsizeMax && r.Err?) ==> r.error == Error(Io, ReadFailed)
      ensures (bufferGiven && request <= SsizeMax && handle != null && handle.isOpen && 0 <= partitionOffset
               && partitionOffset + size <= |handle.bytes| && 0 <= old(currentOffset)) ==> r.Ok?
      ensures old(Valid()) ==> Valid()
      ensures fileIoHandle == old(fileIoHandle) && partitionOffset == old(partitionOffset) && size == old(size)
    {
      if !bufferGiven {
        return Err(Error(Arguments, InvalidValue));
      }
      if request > SsizeMax {
        return Err(Error(Arguments, ValueExceedsMaximum));
      }
      var count := ReadCount(size, currentOffset, request);
      if count == 0 {
        return Ok([]);
      }
      if handle == null || !handle.isOpen {
        return Err(Error(Io, ReadFailed));
      }
      var data := ReadAt(handle.bytes, partitionOffset + currentOffset, count);
      if data.Err? || |data.value| != count {
        return Err(Error(Io, ReadFailed));
      }
      currentOffset := currentOffset + count;
      return Ok(data.value);
    }

    /** libvsmbr_partition_get_offset: the cursor. */
    function GetOffset(): (offset: int)
      reads this
      ensures Valid() ==> offset >= 0
    {
      currentOffset
    }

    /** libvsmbr_partition_get_size: the size in bytes of the region the
        partition covers, as set from the partition values it was made
        from; reading does not change it. */
    function GetSize(): (partitionSize: int)
      reads this
      ensures partitionSize == size
    {
      size
    }
  }

  /** libvsmbr_partition_initialize: a NULL argument and an already set
      target are refused; otherwise the target is set to a zeroed
      partition, which has no file IO handle, an empty region and the
      cursor at 0. */
  method Initialize(partition: Slot<Partition>) returns (r: Result<Slot<Partition>>)
    ensures partition.NullSlot? ==> r == Err(Error(Arguments, InvalidValue))
    ensures partition.Slot? && partition.target.Some? ==> r == Err(Error(Runtime, ValueAlreadySet))
    ensures r.Ok? <==> partition == Slot(None)
    ensures r.Ok? ==> r.value.Slot? && r.value.target.Some?
                      && fresh(r.value.target.value) && r.value.target.value.Valid()
                      && r.value.target.value.fileIoHandle == null && r.value.target.value.size == 0
                      && r.value.target.value.GetOffset() == 0
  {
    if partition.NullSlot? {
      return Err(Error(Arguments, InvalidValue));
    }
    if partition.target.Some? {
      return Err(Error(Runtime, ValueAlreadySet));
    }
    var internal := new Partition(null, PV.Zero);
    return Ok(Slot(Some(internal)));
  }

  /** libvsmbr_partition_free: a NULL argument is refused; the target is
      released and set to NULL, and a NULL target is accepted. */
  function Free(partition: Slot<Partition>): (r: Result<Slot<Partition>>)
    ensures partition.NullSlot? <==> r == Err(Error(Arguments, InvalidValue))
    ensures partition.Slot? ==> r == Ok(Slot(None))
  {
    Release(partition)
  }

  /** libvsmbr_partition_seek_offset: a NULL partition is refused, and a
      refused seek is reported as a seek failure. */
  method SeekOffset(partition: Partition?, offset: int, whence: int) returns (r: Result<int>)
    modifies partition
    ensures partition == null ==> r == Err(Error(Arguments, InvalidValue))
    ensures partition != null ==>
              match SeekTarget(old(partition.size), old(partition.currentOffset), offset, whence)
              case Ok(target) => r == Ok(target) && partition.currentOffset == target
              case Err(_) => r == Err(Error(Io, SeekFailed)) && partition.currentOffset == old(partition.currentOffset)
    ensures partition != null ==> (partition.fileIoHandle == old(partition.fileIoHandle)
                                   && partition.partitionOffset == old(partition.partitionOffset)
                                   && partition.size == old(partition.size))
  {
    if partition == null {
      return Err(Error(Arguments, InvalidValue));
    }
    r := partition.SeekOffset(offset, whence);
    if r.Err? {
      r := Err(Error(Io, SeekFailed));
    }
  }

  /** libvsmbr_partition_get_size: a NULL partition or a missing output
      argument is refused; otherwise the partition's size. */
  function GetSize(partition: Partition?, hasOutput: bool): (r: Result<int>)
    reads partition
    ensures r.Ok? <==> partition != null && hasOutput
    ensures r.Err? ==> r.error == Error(Arguments, InvalidValue)
    ensures r.Ok? ==> r.value == partition.GetSize()
  {
    if partition == null || !hasOutput then Err(Error(Arguments, InvalidValue))
    else Ok(partition.size)
  }

  /** libvsmbr_partition_read_buffer: a read at the cursor from the
      partition's own file IO handle. */
  method ReadBuffer(partition: Partition?, bufferGiven: bool, request: nat) returns (r: Result<seq<uint8>>)
    modifies partition
    ensures partition == null ==> r == Err(Error(Arguments, InvalidValue))
    ensures partition != null && (!bufferGiven || request > SsizeMax) ==> r == Err(Error(Io, ReadFailed))
    ensures partition != null && r.Ok? ==>
              |r.value| == ReadCount(old(partition.size), old(partition.currentOffset), request)
              && partition.currentOffset == old(partition.currentOffset) + |r.value|
    ensures partition != null && r.Err? ==> partition.currentOffset == old(partition.currentOffset)
    ensures (partition != null && bufferGiven && request <= SsizeMax && partition.fileIoHandle != null
             && partition.fileIoHandle.isOpen && 0 <= partition.partitionOffset && partition.partitionOffset + partition.size <= |partition.fileIoHandle.bytes|
             && 0 <= old(partition.currentOffset)) ==> r.Ok?
    ensures partition != null ==> (partition.fileIoHandle == old(partition.fileIoHandle)
                                   && partition.partitionOffset == old(partition.partitionOffset)
                                   && partition.size == old(partition.size))
  {
    if partition == null {
      return Err(Error(Arguments, InvalidValue));
    }
    r := partition.ReadBufferFromFileIoHandle(partition.fileIoHandle, bufferGiven, request);
    if r.Err? {
      r := Err(Error(Io, ReadFailed));
    }
  }

  /** libvsmbr_partition_read_buffer_at_offset: a seek to `offset` from the
      start of the region, then a read there; the cursor ends after the
      bytes read, not where it was before. */
  method ReadBufferAtOffset(partition: Partition?, bufferGiven: bool, request: nat, offset: int)
    returns (r: Result<seq<uint8>>)
    modifies partition
    ensures partition == null ==> r == Err(Error(Arguments, InvalidValue))
    ensures partition != null && offset < 0 ==>
              r == Err(Error(Io, SeekFailed)) && partition.currentOffset == old(partition.currentOffset)
    ensures partition != null && r.Ok? ==>
              offset >= 0 && |r.value| == ReadCount(old(partition.size), offset, request)
              && partition.currentOffset == offset + |r.value|
    ensures (partition != null && offset >= 0 && bufferGiven && request <= SsizeMax && partition.fileIoHandle != null
             && partition.fileIoHandle.isOpen && 0 <= partition.partitionOffset && partition.partitionOffset + partition.size <= |partition.fileIoHandle.bytes|)
            ==> r.Ok?
    ensures partition != null ==> (partition.fileIoHandle == old(partition.fileIoHandle)
                                   && partition.partitionOffset == old(partition.partitionOffset)
                                   && partition.size == old(partition.size))
  {
    if partition == null {
      return Err(Error(Arguments, InvalidValue));
    }
    var sought := partition.SeekOffset(offset, SeekSet);
    if sought.Err? {
      return Err(Error(Io, SeekFailed));
    }
    r := partition.ReadBufferFromFileIoHandle(partition.fileIoHandle, bufferGiven, request);
    if r.Err? {
      r := Err(Error(Io, ReadFailed));
    }
  }

  /** Reads that follow one another cover the region as one read of their
      combined size would. */
  lemma ReadsCompose(size: int, current: nat, first: nat, second: nat)
    ensures ReadCount(size, current, first) + ReadCount(size, current + ReadCount(size, current, first), second)
            == ReadCount(size, current, first + second)
  {
  }

  /** A read never moves the cursor past the end of the region unless it
      was there already. */
  lemma ReadStaysInRegion(size: int, current: int, request: nat)
    ensures current < size ==> current + ReadCount(size, current, request) <= size
  {
  }

  /** Seeks relative to the cursor compose, as long as neither lands before
      the start; a seek from the start ignores the cursor; a seek from the
      end may land past it. */
  lemma SeekLaws(size: int, current: int, a: int, b: int)
    ensures SeekTarget(size, current, a, SeekSet) == SeekTarget(size, 0, a, SeekSet)
    ensures current + a >= 0 && current + a + b >= 0 ==>
              SeekTarget(size, SeekTarget(size, current, a, SeekCur).value, b, SeekCur) == Ok(current + a + b)
    ensures size >= 0 && a >= 0 ==> SeekTarget(size, current, a, SeekEnd) == Ok(size + a)
    ensures SeekTarget(size, current, a, SeekSet).Ok? <==> a >= 0
  {
  }

  /** The seek cases of the library's tests on a 2048-byte partition: two
      seeks of +512 from the cursor, to the end, to the start; then a seek
      to -1 and a seek with whence -1, both refused. */
  method SeekScenario() returns (first: Result<int>, second: Result<int>, end: Result<int>, start: Result<int>,
                                 negative: Result<int>, badWhence: Result<int>)
    ensures first == Ok(512) && second == Ok(1024) && end == Ok(2048) && start == Ok(0)
    ensures negative.Err? && badWhence.Err?
  {
    var partition := new Partition(null, PV.Zero.(size := 2048));
    first := SeekOffset(partition, 512, SeekCur);
    second := SeekOffset(partition, 512, SeekCur);
    end := SeekOffset(partition, 0, SeekEnd);
    start := SeekOffset(partition, 0, SeekSet);
    negative := SeekOffset(partition, -1, SeekSet);
    badWhence := SeekOffset(partition, 0, -1);
  }

  /** The read cases of the library's tests on a 2048-byte partition over
      2048 bytes: 512 then 2048 bytes from the cursor give 512 and 1536
      bytes; at offsets 0 and 512 the same; at offset -1 the read fails. */
  method ReadScenario(data: seq<uint8>) returns (first: nat, second: nat, atZero: nat, atMiddle: nat,
                                                  atNegative: Result<seq<uint8>>)
    requires |data| == 2048
    ensures first == 512 && second == 1536 && atZero == 512 && atMiddle == 1536
    ensures atNegative.Err?
  {
    var handle := new FileIoHandle(data, true, true);
    var partition := new Partition(handle, PV.Zero.(size := 2048));
    var r := ReadBuffer(partition, true, 512);
    first := |r.value|;
    r := ReadBuffer(partition, true, 2048);
    second := |r.value|;
    r := ReadBufferAtOffset(partition, true, 512, 0);
    atZero := |r.value|;
    r := ReadBufferAtOffset(partition, true, 2048, 512);
    atMiddle := |r.value|;
    atNegative := ReadBufferAtOffset(partition, true, 512, -1);
  }

  /** The size cases of the library's tests: a partition made from some
      partition values reports the size they hold, and a NULL partition or
      a missing output argument is refused. */
  method SizeScenario(values: PV.PartitionValues) returns (regular: Result<int>, nullPartition: Result<int>,
                                                           nullOutput: Result<int>)
    ensures regular == Ok(values.size)
    ensures nullPartition == Err(Error(Arguments, InvalidValue)) && nullOutput == Err(Error(Arguments, InvalidValue))
  {
    var partition := new Partition(null, values);
    regular := GetSize(partition, true);
    nullPartition := GetSize(null, true);
    nullOutput := GetSize(partition, false);
  }

  /** On any partition of more than 16 bytes over an open handle, a read of
      4096 bytes after a
      seek to 16 bytes before the end, or at that offset, gives exactly
      16 bytes; a seek 16 bytes past the end is allowed. */
  method TailScenario(handle: FileIoHandle, values: PV.PartitionValues)
    returns (tail: Result<seq<uint8>>, tailAt: Result<seq<uint8>>, pastEnd: Result<int>)
    requires handle.isOpen
    requires values.size > 16 && 0 <= values.offset && values.offset + values.size <= |handle.bytes|
    ensures tail.Ok? && |tail.value| == 16 && tailAt.Ok? && |tailAt.value| == 16
    ensures pastEnd == Ok(values.size + 16)
  {
    var partition := new Partition(handle, values);
    var sought := SeekOffset(partition, -16, SeekEnd);
    tail := ReadBuffer(partition, true, 4096);
    tailAt := ReadBufferAtOffset(partition, true, 4096, values.size - 16);
    pastEnd := SeekOffset(partition, 16, SeekEnd);
  }
}
