// The library-wide constants of libvsmbr_definitions.h. That header is not
// part of this model; the values below are the ones the libyal libraries
// conventionally use, and no proof depends on the particular values except
// where a lemma says so.

module Definitions {

  /** LIBVSMBR_ACCESS_FLAG_READ and LIBVSMBR_ACCESS_FLAG_WRITE. */
  const AccessFlagRead: bv32 := 0x01
  const AccessFlagWrite: bv32 := 0x02

  /** LIBVSMBR_MAXIMUM_RECURSION_DEPTH: how deep the extended partition
      chain may be followed. */
  const MaximumRecursionDepth: nat := 256

  /** MEMORY_MAXIMUM_ALLOCATION_SIZE of the libyal memory wrappers. */
  const MemoryMaximumAllocationSize: nat := 128 * 1024 * 1024

  /** The sector sizes the walk probes and set_bytes_per_sector accepts. */
  predicate SupportedSectorSize(bytesPerSector: int) {
    bytesPerSector == 512 || bytesPerSector == 1024 || bytesPerSector == 2048 || bytesPerSector == 4096
  }
}
