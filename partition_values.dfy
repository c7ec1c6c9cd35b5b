// libvsmbr_partition_values.c: the descriptor of one discovered partition.
//
// The header declares type, offset and size; libvsmbr_volume.c also writes
// partition_record_offset, sector_number and number_of_sectors, so the
// record carries all six.

module PartitionValues {
  import opened Common

  datatype PartitionValues = PartitionValues(
    partitionType: uint8,
    offset: int,
    size: int,
    partitionRecordOffset: int,
    sectorNumber: uint32,
    numberOfSectors: uint32)

  /** The record a successful initialize allocates (memory_set to 0). */
  const Zero: PartitionValues := PartitionValues(0, 0, 0, 0, 0, 0)

  /** libvsmbr_partition_values_initialize. */
  function Initialize(slot: Slot<PartitionValues>): (r: Result<Slot<PartitionValues>>)
    ensures slot.NullSlot? ==> r == Err(Error(Arguments, InvalidValue))
    ensures slot.Slot? && slot.target.Some? ==> r == Err(Error(Runtime, ValueAlreadySet))
    ensures r.Ok? <==> slot == Slot(None)
    ensures r.Ok? ==> (r.value.Slot? && r.value.target.Some?
                       && r.value.target.value.partitionType == 0
                       && r.value.target.value.offset == 0 && r.value.target.value.size == 0)
  {
    Allocate(slot, Zero)
  }

  /** libvsmbr_partition_values_free: NULL argument refused, NULL target accepted. */
  function Free(slot: Slot<PartitionValues>): (r: Result<Slot<PartitionValues>>)
    ensures slot.NullSlot? <==> r == Err(Error(Arguments, InvalidValue))
    ensures slot.Slot? ==> r == Ok(Slot(None))
  {
    Release(slot)
  }

  /** The argument checks every getter makes: the values and the output
      pointer must both be given. */
  predicate ArgumentsGiven(values: Option<PartitionValues>, hasOutput: bool) {
    values.Some? && hasOutput
  }

  /** libvsmbr_partition_values_get_type. */
  function GetType(values: Option<PartitionValues>, hasOutput: bool): (r: Result<uint8>)
    ensures r.Ok? <==> ArgumentsGiven(values, hasOutput)
    ensures r.Err? ==> r.error == Error(Arguments, InvalidValue)
    ensures r.Ok? ==> r.value == values.value.partitionType
  {
    if !ArgumentsGiven(values, hasOutput) then Err(Error(Arguments, InvalidValue))
    else Ok(values.value.partitionType)
  }

  /** libvsmbr_partition_values_get_offset. */
  function GetOffset(values: Option<PartitionValues>, hasOutput: bool): (r: Result<int>)
    ensures r.Ok? <==> ArgumentsGiven(values, hasOutput)
    ensures r.Err? ==> r.error == Error(Arguments, InvalidValue)
    ensures r.Ok? ==> r.value == values.value.offset
  {
    if !ArgumentsGiven(values, hasOutput) then Err(Error(Arguments, InvalidValue))
    else Ok(values.value.offset)
  }

  /** libvsmbr_partition_values_get_size. */
  function GetSize(values: Option<PartitionValues>, hasOutput: bool): (r: Result<int>)
    ensures r.Ok? <==> ArgumentsGiven(values, hasOutput)
    ensures r.Err? ==> r.error == Error(Arguments, InvalidValue)
    ensures r.Ok? ==> r.value == values.value.size
  {
    if !ArgumentsGiven(values, hasOutput) then Err(Error(Arguments, InvalidValue))
    else Ok(values.value.size)
  }

  /** Freshly initialized values read back as type 0, offset 0 and size 0. */
  lemma FreshValuesReadZero()
    ensures var values := Initialize(Slot(None)).value.target;
            GetType(values, true) == Ok(0) && GetOffset(values, true) == Ok(0) && GetSize(values, true) == Ok(0)
  {
  }
}
