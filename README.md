# libvsmbr in Dafny

A model of libvsmbr, the libyal library that reads the partition tables of a
Master Boot Record (MBR) volume: the 512-byte master boot record at offset 0,
its four 16-byte partition entries, and the chain of extended partition
records (EPRs) that type 0x05 and 0x0f entries point to. The model covers:

- the byte decoders: the CHS address, the partition entry, the boot record;
- the two partition-table walks:
  - the one `libvsmbr_volume.c` uses, bounded by a recursion depth and
    retrying a failed EPR read with doubled sector sizes;
  - the older one in `libvsmbr_handle.c`, which only follows 0x05 and falls
    back once to 4096-byte sectors;
- the `read_mbr`/`read_eprs` readers of the IO handle;
- the partition handle, with its seek and read cursor;
- the sector data buffer;
- the volume signature probe, with its substring search;
- the two type-description tables and their sentinel-terminated scan.

The disk image is the sequence of bytes behind a `FileIoHandle` object. A
function reports the error it sets itself, as a `Result` carrying the
libcerror domain and code. Objects whose fields the C code updates in place
are classes:

- the volume;
- the handle;
- the boot record;
- the partition;
- the sector data;
- the file IO handle.

Each walk is specified by total functions over the bytes (`Walk`, `Scan`,
`FollowChain`, `OpenRead`). The imperative methods are proved to compute
exactly those functions, and the lemmas state what the walks guarantee.

Files:

- `common.dfy`: integers, errors, `Result`/`Option`/`Slot`, little-endian
  words.
- `definitions.dfy`: library constants.
- `file_io.dfy`: the libbfio handle as seen by the library.
- `chs_address.dfy`, `partition_entry.dfy`, `boot_record.dfy`: decoders and
  round trips.
- `partition_values.dfy`, `io_handle.dfy`: descriptors; `read_mbr` and
  `read_eprs`.
- `volume.dfy`: the volume and its walk (module `Volume`), and the walk's
  properties (module `VolumeProperties`).
- `handle.dfy`: the handle and its walk.
- `chain_comparison.dfy`: both walks on a self-linked image.
- `partition.dfy`, `sector_data.dfy`, `support.dfy`: the partition cursor,
  the sector buffer, access flags and the signature probe.
- `type_table.dfy`, `partition_type.dfy`, `volume_type.dfy`: the description
  tables.

## Model

| member | source | states |
|---|---|---|
| Common.Allocate | libvsmbr/libvsmbr_partition_values.c:33-100 | the shape of every initialize: NULL argument is Arguments/InvalidValue, a set target Runtime/ValueAlreadySet, otherwise the target is set to the initial value |
| Common.Release | libvsmbr/libvsmbr_partition_values.c:105-130 | the shape of every free: NULL argument refused with Arguments/InvalidValue, otherwise the target ends NULL (also when already NULL) |
| Common.ReleaseThenAllocate | libvsmbr/libvsmbr_partition_values.c:33-130 | freeing twice is the same as once, and a freed slot initializes again |
| Common.LittleEndian32OfBytes | libvsmbr/libvsmbr_partition_entry.c:204-210 | decoding the four little-endian bytes of a 32-bit value gives it back |
| Common.BytesOfLittleEndian32 | libvsmbr/libvsmbr_partition_entry.c:204-210 | encoding the decoded value of four bytes gives the bytes back (the decoder is injective) |
| FileIo.FileIoHandle.Open | libvsmbr/libvsmbr_volume.c:732-746 | succeeds exactly when the handle can be opened, with Io/OpenFailed otherwise; it is open afterwards if it was or could be opened |
| FileIo.FileIoHandle.Close | libvsmbr/libvsmbr_volume.c:880-893 | the handle is closed afterwards |
| FileIo.ReadAt | libvsmbr/libvsmbr_sector_data.c:245-262 | a negative offset fails with Io/SeekFailed; otherwise at most `count` bytes, exactly the bytes at the offset when they exist, clamped at the end of the source |
| ChsAddress.Value24 | libvsmbr/libvsmbr_chs_address.c:203-218 | the 24-bit value of the first three bytes lies below 2^24 |
| ChsAddress.CopyFromByteStream | libvsmbr/libvsmbr_chs_address.c:137-230 | fewer than 3 bytes is ValueTooSmall, more than SSIZE_MAX ValueExceedsMaximum, an unknown byte order UnsupportedValue; success exactly otherwise, with head <= 255, sector <= 63, cylinder <= 1023 |
| ChsAddress.Split | libvsmbr/libvsmbr_chs_address.c:219-227 | the masks leave a sector below 64 and a cylinder below 1024 |
| ChsAddress.Combine | libvsmbr/libvsmbr_chs_address.c:219-227 | the value of an address is never negative, and lies below 2^24 when its sector and cylinder are within the field bounds |
| ChsAddress.SplitIsLossless | libvsmbr/libvsmbr_chs_address.c:219-227 | every 24-bit value is recovered from the head, sector and cylinder the masks and shifts produce |
| ChsAddress.CombineIsLossless | libvsmbr/libvsmbr_chs_address.c:219-227 | every address within the field bounds is the split of its value |
| ChsAddress.OnlyFirstThreeBytes | libvsmbr/libvsmbr_chs_address.c:203-218 | only the first three bytes of the stream affect the result |
| ChsAddress.BigEndianIsReversedLittle | libvsmbr/libvsmbr_chs_address.c:203-218 | big endian decodes like little endian on the reversed bytes |
| ChsAddress.LittleEndianFields | libvsmbr/libvsmbr_chs_address.c:203-227 | the fields of a little-endian stream in terms of its three bytes |
| PartitionEntry.Initialize | libvsmbr/libvsmbr_partition_entry.c:41-108 | argument checks as for every initialize; the new entry is all zero |
| PartitionEntry.Free | libvsmbr/libvsmbr_partition_entry.c:113-138 | NULL argument refused, otherwise the target ends NULL |
| PartitionEntry.ReadData | libvsmbr/libvsmbr_partition_entry.c:143-348 | exactly a 16-byte record is accepted (else Arguments/ValueOutOfBounds); flags is byte 0, type byte 4, the index is left alone |
| PartitionEntry.Encode | libvsmbr/libvsmbr_partition_entry.c:143-212 | a record holding given fields is 16 bytes long |
| PartitionEntry.ReadEncoded | libvsmbr/libvsmbr_partition_entry.c:143-212 | decoding an encoded record gives back every field, whatever the CHS bytes |
| PartitionEntry.EncodeRead | libvsmbr/libvsmbr_partition_entry.c:143-212 | every record is the encoding of what is decoded from it plus its CHS bytes |
| PartitionEntry.ReadDataFields | libvsmbr/libvsmbr_partition_entry.c:204-210 | LBA and sector count are the little-endian words at bytes 8 and 12 |
| PartitionEntry.ChsBytesIgnored | libvsmbr/libvsmbr_partition_entry.c:143-348 | records differing only in the CHS bytes decode alike |
| PartitionEntry.SampleRecord | tests/vsmbr_test_partition_entry.c:38-39 | the record of the partition-entry test decodes to flags 0x80, type 0x07, LBA 2048 and 204800 sectors |
| BootRecord.DecodeEntries | libvsmbr/libvsmbr_boot_record.c:265-319 | the four entries in table order, entry i from bytes 446 + 16 i |
| BootRecord.ReadSector | libvsmbr/libvsmbr_boot_record.c:354-436 | a negative offset is Io/SeekFailed; otherwise success exactly when 512 bytes exist there, which it returns, else Io/ReadFailed |
| BootRecord.ReadBootRecord | libvsmbr/libvsmbr_boot_record.c:177-436 | succeeds exactly when the sector reads and ends in 0x55 0xaa, a bad signature being reported as Io/ReadFailed; yields the disk identity at 440 and the four entries |
| BootRecord.BootRecord.constructor | libvsmbr/libvsmbr_boot_record.c:41-127 | an empty record |
| BootRecord.BootRecord.ReadData | libvsmbr/libvsmbr_boot_record.c:177-349 | wrong size is Arguments/ValueOutOfBounds and changes nothing; a bad signature is Runtime/UnsupportedValue and empties the entries; a good sector sets the disk identity and appends its four entries |
| BootRecord.BootRecord.ReadFileIoHandle | libvsmbr/libvsmbr_boot_record.c:354-436 | a closed handle fails to seek and changes nothing; otherwise the outcome of reading and decoding the sector at the offset; a failed read changes nothing; a sector with a bad signature empties the entries and keeps the disk identity; read into an empty record, it holds exactly the decoded entries |
| BootRecord.BootRecord.GetNumberOfPartitionEntries | libvsmbr/libvsmbr_boot_record.c:441-474 | the number of entries held |
| BootRecord.BootRecord.GetPartitionEntryByIndex | libvsmbr/libvsmbr_boot_record.c:479-515 | the entry at an index within range, Runtime/GetFailed otherwise |
| BootRecord.EncodeSector | libvsmbr/libvsmbr_boot_record.c:177-319 | a sector built from its parts is 512 bytes |
| BootRecord.EncodedEntry | libvsmbr/libvsmbr_boot_record.c:265-319 | entry i of an encoded sector decodes to the entry put there |
| BootRecord.DecodeEncodedSector | libvsmbr/libvsmbr_boot_record.c:177-319 | an encoded sector reads back with its disk identity and four entries, whatever the boot code, padding and CHS bytes |
| BootRecord.SampleSector | tests/vsmbr_test_boot_record.c:40-72 | any sector with the test sector's bytes from 440 on has the signature, disk identity 0x695b431a, two NTFS entries with their LBAs and sizes, and two empty entries |
| BootRecord.SampleEntry | tests/vsmbr_test_boot_record.c:40-72 | an entry of a sector holding a given record decodes to it |
| BootRecord.RejectsBadSignature | libvsmbr/libvsmbr_boot_record.c:234-346 | a sector ending in 0xff 0xff, like the error sector of the boot-record test, is refused with Runtime/UnsupportedValue and leaves a new record with no entries and disk identity 0 |
| BootRecord.HasBootSignature | libvsmbr/libvsmbr_boot_record.c:234-235 | the sector ends in the two bytes 0x55 0xaa |
| BootRecord.DiskIdentity | libvsmbr/libvsmbr_boot_record.c:249-251 | the identity whose little-endian bytes are bytes 440 to 443 of the sector |
| BootRecord.DecodeEntry | libvsmbr/libvsmbr_boot_record.c:267-319 | entry i has index i, and its flags and type are bytes 0 and 4 of its 16 bytes at 446 + 16 i |
| BootRecord.DecodeEntryEncodes | libvsmbr/libvsmbr_boot_record.c:267-319 | decoding an entry loses only its CHS addresses: encoding it again with them gives back its 16 bytes |
| PartitionValues.Initialize | libvsmbr/libvsmbr_partition_values.c:33-100 | argument checks; the new values are all zero |
| PartitionValues.Free | libvsmbr/libvsmbr_partition_values.c:105-130 | NULL argument refused, NULL target accepted |
| PartitionValues.GetType | libvsmbr/libvsmbr_partition_values.c:135-167 | the stored type exactly when values and output are given, Arguments/InvalidValue otherwise |
| PartitionValues.GetOffset | libvsmbr/libvsmbr_partition_values.c:172-204 | the stored offset under the same checks |
| PartitionValues.GetSize | libvsmbr/libvsmbr_partition_values.c:209-241 | the stored size under the same checks |
| PartitionValues.FreshValuesReadZero | libvsmbr/libvsmbr_partition_values.c:33-241 | freshly initialized values read back type, offset and size 0 |
| IoHandle.Initialize | libvsmbr/libvsmbr_io_handle.c:45-114 | argument checks; the new handle has 512 bytes per sector and no abort |
| IoHandle.Free | libvsmbr/libvsmbr_io_handle.c:119-144 | NULL argument refused, NULL target accepted |
| IoHandle.Clear | libvsmbr/libvsmbr_volume.c:914-926 | after clearing: 512 bytes per sector, no abort |
| IoHandle.Describe | libvsmbr/libvsmbr_io_handle.c:428-439 | the entry's type; byte offset and size are whole sectors from which the LBA and the sector count are recovered; the fields kept in sectors stay zero |
| IoHandle.MbrPartitions | libvsmbr/libvsmbr_io_handle.c:280-462 | read_mbr appends nothing exactly when every entry of the table is empty |
| IoHandle.EprTable | libvsmbr/libvsmbr_io_handle.c:631-828 | at most one descriptor per entry; a next table exactly when some entry is of type 0x05 |
| IoHandle.EprsWalk | libvsmbr/libvsmbr_io_handle.c:556-847 | read_eprs' loop fails only with a seek or read failure or a missing boot signature |
| IoHandle.MbrPartitionsAreNonEmptyEntries | libvsmbr/libvsmbr_io_handle.c:280-462 | every descriptor read_mbr appends comes from a non-empty entry and every non-empty entry gives one |
| IoHandle.ReadMbr | libvsmbr/libvsmbr_io_handle.c:149-503 | seek failure on a closed handle, read failure on a short source, Runtime/UnsupportedValue on a bad signature; success exactly when the record reads; then the descriptors of its non-empty entries are appended in table order, and nothing on failure |
| IoHandle.ScanEprTable | libvsmbr/libvsmbr_io_handle.c:631-828 | one table appends its entries of types other than 0 and 0x05, and remembers the offset of the last 0x05 entry |
| IoHandle.ReadEprsFrom | libvsmbr/libvsmbr_io_handle.c:556-847 | from an open handle, or when the loop does not run, the loop computes the specification walk from a given offset and bound; a loop that must read from a closed handle fails with Io/SeekFailed and appends nothing |
| IoHandle.ReadEprs | libvsmbr/libvsmbr_io_handle.c:508-874 | read_eprs computes the specification walk from offset 0 with file size 0, on any handle, open or not |
| IoHandle.ReadEprsIsNoOp | libvsmbr/libvsmbr_io_handle.c:508-874 | read_eprs succeeds and leaves the partitions unchanged: its loop never runs |
| IoHandle.EprsWalkAppendsOnly | libvsmbr/libvsmbr_io_handle.c:556-847 | were the loop entered, it would only append descriptors of types other than 0 and 0x05 |
| IoHandle.EprTableAppendsOrdinary | libvsmbr/libvsmbr_io_handle.c:631-828 | a table contributes no empty and no 0x05 descriptor |
| Volume.ProbeChain | libvsmbr/libvsmbr_volume.c:1156-1241 | the sector size only grows and stays supported, grows only at the MBR level and only after a failed read at the smaller size; the result is the record read at the final size |
| Volume.Descriptor | libvsmbr/libvsmbr_volume.c:1247-1263 | the descriptor keeps the entry's type, LBA and sector count and the offset of its table; its byte offset and size stay unset |
| Volume.ScanEntry | libvsmbr/libvsmbr_volume.c:1118-1281 | one entry never shrinks the sector size |
| Volume.ProbeChainRetries | libvsmbr/libvsmbr_volume.c:1201-1235 | a failed read below 4096 at the MBR level is retried with the size doubled |
| Volume.ProbeChainStops | libvsmbr/libvsmbr_volume.c:1201-1235 | a successful read, a read below the MBR level or a read at 4096 or more ends the retries at the current sector size |
| Volume.Volume.constructor | libvsmbr/libvsmbr_volume.c:46-165 | a closed volume with a fresh IO handle and no partitions |
| Volume.Volume.SignalAbort | libvsmbr/libvsmbr_volume.c:262-296 | only the abort flag is raised |
| Volume.Volume.Open | libvsmbr/libvsmbr_volume.c:641-805 | an attached volume, a NULL handle, no read flag or a write flag, and an unopenable handle each give their own error and change nothing; success exactly when the handle is or can be opened and the walk succeeds, and then the volume keeps the open handle and holds the walk's partitions; a failed walk leaves its partial state and closes a handle the volume opened |
| Volume.Volume.ReadVolume | libvsmbr/libvsmbr_volume.c:962-1072 | records the source size and computes exactly OpenRead on the image |
| Volume.Volume.ProbeExtendedPartitionRecord | libvsmbr/libvsmbr_volume.c:1156-1241 | the record object and sector size are those ProbeChain gives; nothing else changes |
| Volume.Volume.ReadPartitionEntries | libvsmbr/libvsmbr_volume.c:1077-1345 | computes exactly Walk on the record's entries; the attachment is left alone |
| Volume.Volume.Close | libvsmbr/libvsmbr_volume.c:810-957 | refused with Runtime/ValueMissing on a closed volume; otherwise detaches the handle and closes it only if the library opened it |
| Volume.Volume.GetBytesPerSector | libvsmbr/libvsmbr_volume.c:1350-1426 | always a supported sector size |
| Volume.Volume.SetBytesPerSector | libvsmbr/libvsmbr_volume.c:1431-1521 | refused once the walk set the size, and for sizes other than 512, 1024, 2048, 4096; otherwise only the size changes |
| Volume.Volume.GetNumberOfPartitions | libvsmbr/libvsmbr_volume.c:1526-1593 | the number of partitions found |
| Volume.Volume.GetPartitionByIndex | libvsmbr/libvsmbr_volume.c:1598-1715 | output-pointer checks, Runtime/GetFailed out of range, else the descriptor at the index |
| Volume.ScanEntryExtends | libvsmbr/libvsmbr_volume.c:1118-1281 | one entry only appends descriptors and never shrinks the sector size |
| Volume.WalkExtends | libvsmbr/libvsmbr_volume.c:1077-1345 | on every image the walk only appends non-empty, non-chain descriptors and only grows the sector size, also when it fails |
| Volume.ScanExtends | libvsmbr/libvsmbr_volume.c:1118-1320 | the same for the loop from any entry on |
| Volume.FollowChainExtends | libvsmbr/libvsmbr_volume.c:1283-1320 | the same for following the chain |
| VolumeProperties.Ordinary | libvsmbr/libvsmbr_volume.c:1248-1280 | a table's own descriptors are at most one per entry |
| VolumeProperties.ScanEntryAppends | libvsmbr/libvsmbr_volume.c:1118-1281 | a step that goes on appends exactly the entry's own descriptor, if any |
| VolumeProperties.ScanDiscoveryOrder | libvsmbr/libvsmbr_volume.c:1118-1320 | a successful walk lists a table's own partitions first, in table order, before any from its chain |
| VolumeProperties.WalkDiscoveryOrder | libvsmbr/libvsmbr_volume.c:1077-1345 | the same for a whole walk |
| VolumeProperties.ScanWithoutChain | libvsmbr/libvsmbr_volume.c:1118-1282 | a table without chain entries contributes exactly its own descriptors and succeeds |
| VolumeProperties.ScanOrdinaryStep | libvsmbr/libvsmbr_volume.c:1118-1282 | an entry that is not a chain entry appends its own descriptor, if any, and the loop goes on with the next entry |
| VolumeProperties.WalkWithoutChain | libvsmbr/libvsmbr_volume.c:1077-1345 | the same for a whole walk |
| VolumeProperties.ScanRejectsSelfLink | libvsmbr/libvsmbr_volume.c:1283-1296 | a chain entry with LBA 0 points back to its own table and is refused with Runtime/ValueOutOfBounds |
| VolumeProperties.WalkRejectsSelfLink | libvsmbr/libvsmbr_volume.c:1283-1296 | the same for a whole walk |
| VolumeProperties.WalkIgnoresFlag | libvsmbr/libvsmbr_volume.c:1077-1345 | the walk's result, partitions and sector size do not depend on the set-by-library flag |
| VolumeProperties.ScanIgnoresFlag | libvsmbr/libvsmbr_volume.c:1118-1320 | the same for the loop |
| VolumeProperties.OpenCloseOpenClose | tests/vsmbr_test_volume.c:1048-1184 | open, close, open, close over one image all succeed and both opens find the same partitions |
| VolumeProperties.OpenReadIgnoresFlag | libvsmbr/libvsmbr_volume.c:962-1072 | opening after a close gives what a first open gives |
| Handle.ProbeChain | libvsmbr/libvsmbr_handle.c:978-1050 | the record read at the final offset; the sector size stays or becomes 4096, and the offset or size change exactly when the first entry's read at 512 fails, the retry reading at LBA times 4096 |
| Handle.Descriptor | libvsmbr/libvsmbr_handle.c:1053-1070 | read_mbr's descriptor of the entry, except that the offset counts from the table the entry was read from |
| Handle.ScanEntry | libvsmbr/libvsmbr_handle.c:940-1092 | only a chain entry stops the loop, with UnsupportedValue for a second one and ReadFailed for an unreadable one, and a stop appends nothing; the first chain entry becomes the link and other entries keep it; the sector size changes only by the one fallback from 512 to 4096 |
| Handle.Handle.constructor | libvsmbr/libvsmbr_handle.c:46-150 | a closed handle with a fresh IO handle and no partitions |
| Handle.Handle.SignalAbort | libvsmbr/libvsmbr_handle.c:232-266 | only the abort flag is raised |
| Handle.Handle.Open | libvsmbr/libvsmbr_handle.c:545-680 | every argument and access-flag error; success exactly for an unopened handle, a given file IO handle and a walk that finishes without error; a handle it opened itself is closed on failure |
| Handle.Handle.ReadHandle | libvsmbr/libvsmbr_handle.c:800-896 | computes exactly OpenRead (or runs out of fuel with it); the attachment is left alone |
| Handle.Handle.ReadExtendedPartitionRecord | libvsmbr/libvsmbr_handle.c:978-1040 | the record and sector size ProbeChain gives; partitions unchanged |
| Handle.Handle.ReadPartitionEntries | libvsmbr/libvsmbr_handle.c:901-1142 | computes exactly Walk (or runs out of fuel with it) and hands back first_partition_entry |
| Handle.Handle.Close | libvsmbr/libvsmbr_handle.c:685-795 | refused with Runtime/ValueMissing without a file IO handle; otherwise detaches it, closing it only if the library created it, clears the IO handle and empties the partitions; the opened-in-library flag is kept |
| Handle.Handle.GetBytesPerSector | libvsmbr/libvsmbr_handle.c:1147-1193 | always 512 or 4096 |
| Handle.Handle.GetNumberOfPartitions | libvsmbr/libvsmbr_handle.c:1198-1234 | the number of partitions found |
| Handle.Handle.GetPartitionByIndex | libvsmbr/libvsmbr_handle.c:1239-1317 | output-pointer checks, Runtime/GetFailed out of range, else the descriptor at the index |
| Handle.ScanEntryExtends | libvsmbr/libvsmbr_handle.c:940-1092 | one entry only appends, and switches to 4096-byte sectors only before anything was appended |
| Handle.WalkExtends | libvsmbr/libvsmbr_handle.c:901-1142 | a finished walk only appended ordinary descriptors |
| Handle.ScanExtends | libvsmbr/libvsmbr_handle.c:940-1092 | the same for the loop |
| Handle.FollowChainExtends | libvsmbr/libvsmbr_handle.c:1093-1125 | the same for following the chain |
| Handle.WalkSectorSize | libvsmbr/libvsmbr_handle.c:1024-1031 | the sector size stays 512 or 4096 through a walk |
| Handle.Ordinary | libvsmbr/libvsmbr_handle.c:1051-1090 | a table's own descriptors are at most one per entry |
| Handle.ScanWithoutChain | libvsmbr/libvsmbr_handle.c:940-1092 | a table without a 0x05 entry contributes exactly its own descriptors, 0x0f included |
| Handle.ScanOrdinaryStep | libvsmbr/libvsmbr_handle.c:940-1092 | an entry other than 0x05 appends its own descriptor, if any, clears first_partition_entry when non-empty, and the loop goes on with the next entry |
| Handle.WalkWithoutChain | libvsmbr/libvsmbr_handle.c:901-1142 | the same for a whole walk |
| Handle.WalkFuelMonotone | libvsmbr/libvsmbr_handle.c:901-1142 | more fuel does not change a walk that finished |
| Handle.ScanFuelMonotone | libvsmbr/libvsmbr_handle.c:940-1125 | the same for the loop |
| Handle.FollowChainFuelMonotone | libvsmbr/libvsmbr_handle.c:1093-1125 | the same for following the chain |
| Handle.ScanSelfLink | libvsmbr/libvsmbr_handle.c:978-1125 | a 0x05 entry with LBA 0 is followed back to its own table: the loop never finishes |
| Handle.WalkSelfLink | libvsmbr/libvsmbr_handle.c:901-1142 | the same for a whole walk, whatever the fuel |
| ChainComparison.SelfLinkedImage | libvsmbr/libvsmbr_handle.c:978-1125 | the two-sector image is 1024 bytes |
| ChainComparison.SelfLinkedImageDecodes | libvsmbr/libvsmbr_boot_record.c:354-436 | its sectors read as the MBR and the self-linked EPR |
| ChainComparison.ExtendedEntriesLinkToThemselves | libvsmbr/libvsmbr_volume.c:1156-1158 | the EPR's only chain entry has LBA 0 and is a chain link for both walks |
| ChainComparison.HandleMasterTable | libvsmbr/libvsmbr_handle.c:940-1125 | the handle walk of the MBR only follows the link to 512 |
| ChainComparison.HandleChainDiverges | libvsmbr/libvsmbr_handle.c:1093-1125 | following the EPR at 512 never ends |
| ChainComparison.HandleWalkDiverges | libvsmbr/libvsmbr_handle.c:800-896 | opening such an image with the handle does not finish within any fuel |
| ChainComparison.VolumeMasterTable | libvsmbr/libvsmbr_volume.c:1118-1320 | the volume walk of the MBR only follows the link to 512 |
| ChainComparison.VolumeChainRejected | libvsmbr/libvsmbr_volume.c:1283-1312 | at depth 1 the EPR is refused, reaching depth 0 as Io/ReadFailed |
| ChainComparison.VolumeWalkRejects | libvsmbr/libvsmbr_volume.c:962-1072 | opening such an image with the volume fails with Io/ReadFailed |
| ChainComparison.SelfLinkedImageExists | libvsmbr/libvsmbr_boot_record.c:177-349 | such an image exists |
| Support.GetAccessFlagsRead | libvsmbr/libvsmbr_support.c:47-51 | the read bit is set, the write bit is not |
| Support.GetAccessFlagsWrite | libvsmbr/libvsmbr_support.c:63-67 | the write bit is set, the read bit is not |
| Support.GetAccessFlagsReadWrite | libvsmbr/libvsmbr_support.c:55-59 | the union of the two, both bits set |
| Support.FirstMatchFrom | libvsmbr/libvsmbr_support.c:338-355 | a match at or after `start`, with no match between `start` and it; none means no match from `start` on |
| Support.MemMem | libvsmbr/libvsmbr_support.c:338-355 | none for a NULL or empty buffer or needle; otherwise the first occurrence inside the first `srcLen` bytes, none when there is none |
| Support.MemMemCmp | libvsmbr/libvsmbr_support.c:338-355 | the pointer loop returns exactly MemMem |
| Support.SignatureOf | libvsmbr/libvsmbr_support.c:416-457 | a read error exactly for a source under 512 bytes; otherwise whether the sector ends in 0x55 0xaa with neither "NTFS" nor "FAT" in the first 446 bytes |
| Support.MemMemNone | libvsmbr/libvsmbr_support.c:450-453 | memmemcmp finding nothing in the boot code means no occurrence there |
| Support.CheckVolumeSignatureFileIoHandle | libvsmbr/libvsmbr_support.c:360-467 | NULL refused; the handle ends as open as it was; an unopenable handle is Io/OpenFailed; otherwise the answer is SignatureOf on the source |
| Support.CheckVolumeSignature | libvsmbr/libvsmbr_support.c:126-226 | a missing or empty filename is Arguments/InvalidValue; any inner failure is Runtime/GetFailed; otherwise SignatureOf |
| Support.AcceptedSignatureReads | libvsmbr/libvsmbr_support.c:360-467 | every sector the probe accepts is a readable master boot record |
| Support.NtfsBootCodeRefused | libvsmbr/libvsmbr_support.c:450-457 | boot code containing "NTFS" is refused whatever the rest |
| Support.SignatureReadsFirstSector | libvsmbr/libvsmbr_support.c:416-432 | only the first 512 bytes decide the answer |
| Support.IsVolumeSignature | libvsmbr/libvsmbr_support.c:450-457 | a sector taken for a master boot record carries the boot signature |
| Partition.SeekTarget | tests/vsmbr_test_partition.c:1555-1783 | a target is never negative; an unknown whence is Arguments/UnsupportedValue |
| Partition.ReadCount | tests/pyvsmbr_test_partition.py:33-72 | at most the request; nothing at or past the end; otherwise up to the end of the region |
| Partition.Partition.constructor | libvsmbr/libvsmbr_partition.c:37-105 | a partition over the region its values describe, cursor at 0 |
| Partition.Partition.SeekOffset | tests/vsmbr_test_partition.c:1555-1783 | the result is SeekTarget; the cursor moves to it on success and stays on failure; nothing else changes |
| Partition.Partition.ReadBufferFromFileIoHandle | tests/vsmbr_test_partition.c:704-953 | missing buffer and oversized request refused; a read returns ReadCount bytes of the region at the cursor and advances it; a non-empty read needs an open handle and succeeds when the region lies in the source; a failure leaves the cursor |
| Partition.Partition.GetOffset | tests/vsmbr_test_partition.c:2011-2230 | the cursor, never negative |
| Partition.Partition.GetSize | tests/vsmbr_test_partition.c:2231-2390 | the size in bytes of the region, as set from the partition values the partition was made from |
| Partition.Initialize | libvsmbr/libvsmbr_partition.c:37-105 | argument checks; a fresh partition with the cursor at 0 |
| Partition.Free | libvsmbr/libvsmbr_partition.c:110-138 | NULL argument refused, otherwise the target ends NULL |
| Partition.SeekOffset | tests/vsmbr_test_partition.c:1784-2010 | NULL refused; a refused seek becomes Io/SeekFailed; otherwise the inner seek |
| Partition.ReadBuffer | tests/vsmbr_test_partition.c:954-1240 | NULL refused; an inner failure becomes Io/ReadFailed; otherwise the inner read, which succeeds on an open handle whose source holds the region |
| Partition.ReadBufferAtOffset | tests/vsmbr_test_partition.c:1241-1554 | a negative offset fails to seek; otherwise the read at the offset, the cursor ending after the bytes read |
| Partition.ReadsCompose | tests/pyvsmbr_test_partition.py:33-72 | two reads in a row cover what one read of their combined size covers |
| Partition.ReadStaysInRegion | tests/pyvsmbr_test_partition.py:56-63 | a read never moves the cursor past the end of the region |
| Partition.SeekLaws | tests/pyvsmbr_test_partition.py:131-183 | SET ignores the cursor; CUR seeks compose; END lands at size plus offset; SET succeeds exactly for non-negative offsets |
| Partition.SeekScenario | tests/vsmbr_test_partition.c:1606-1720 | the test's seeks land at 512, 1024, 2048 and 0, and its two bad seeks are refused |
| Partition.ReadScenario | tests/vsmbr_test_partition.c:1241-1554 | the test's reads return 512 and 1536 bytes, also at offsets 0 and 512, and a read at -1 fails |
| Partition.TailScenario | tests/pyvsmbr_test_partition.py:56-63 | on an open handle, 16 bytes before the end, a 4096-byte read returns 16 bytes; a seek 16 past the end is allowed |
| Partition.GetSize | tests/vsmbr_test_partition.c:2231-2390 | a NULL partition or a missing output argument is Arguments/InvalidValue; otherwise the partition's size |
| Partition.SizeScenario | tests/vsmbr_test_partition.c:2231-2390 | a partition made from some partition values reports their size, and the test's two bad calls are refused |
| SectorData.SectorData.constructor | libvsmbr/libvsmbr_sector_data.c:38-139 | a buffer of exactly the requested size |
| SectorData.SectorData.ReadFileIoHandle | libvsmbr/libvsmbr_sector_data.c:192-278 | size 0 or above SSIZE_MAX is Runtime/ValueOutOfBounds; success exactly when the handle is open and the whole range is in the source, and then the buffer holds it; otherwise Io/ReadFailed and the buffer is unchanged |
| SectorData.SectorData.Wipe | libvsmbr/libvsmbr_sector_data.c:162-174 | every byte of the buffer is zero |
| SectorData.Initialize | libvsmbr/libvsmbr_sector_data.c:38-139 | NULL argument, set target and a size of 0 or above the allocation limit are refused in that order; otherwise a fresh buffer of the size |
| SectorData.Free | libvsmbr/libvsmbr_sector_data.c:144-187 | NULL argument refused; a set target's buffer is zeroed and the target ends NULL |
| SectorData.ReadBootSector | libvsmbr/libvsmbr_sector_data.c:192-278 | a 512-byte sector reads exactly when the handle is open and the sector lies in the source, and then it is those bytes |
| TypeTable.DescribeFirst | libvsmbr/libvsmbr_partition_type.c:136-151 | the scan returns the description of the first row holding the type or the sentinel |
| TypeTable.DescribeAbsent | libvsmbr/libvsmbr_partition_type.c:136-151 | a type with no row gets the sentinel row's description |
| TypeTable.DescribeFromRow | libvsmbr/libvsmbr_partition_type.c:136-151 | the description always comes from a row holding the type or the sentinel |
| TypeTable.SwappedKeysAscend | libvsmbr/libvsmbr_partition_type.c:30-132 | keys ascending row to row, up to one exchanged pair, ascend between any two rows |
| TypeTable.DistinctKeys | libvsmbr/libvsmbr_partition_type.c:30-132 | such keys are pairwise distinct |
| TypeTable.Lookup | libvsmbr/libvsmbr_partition_type.c:140-150 | the while loop returns exactly the description the scan specifies |
| PartitionType.PartitionTypesTerminated | libvsmbr/libvsmbr_partition_type.c:30-132 | the table has 102 rows and ends with the sentinel |
| PartitionType.DescribedAt | libvsmbr/libvsmbr_partition_type.c:136-151 | the first row holding the type or the sentinel gives the description |
| PartitionType.GetDescription | libvsmbr/libvsmbr_partition_type.c:136-151 | the description of a row holding the type or of the sentinel row, as the scan specifies |
| PartitionType.KeysAscendBeforeSwap | libvsmbr/libvsmbr_partition_type.c:30-123 | the type values ascend up to 0xf1 |
| PartitionType.KeysAscend | libvsmbr/libvsmbr_partition_type.c:30-132 | with 0xf4 and 0xf2 exchanged the type values ascend through the table |
| PartitionType.KeysDistinct | libvsmbr/libvsmbr_partition_type.c:30-132 | no type value has two rows |
| PartitionType.KeysAreBytes | libvsmbr/libvsmbr_partition_type.c:30-132 | every row before the sentinel holds a byte value |
| PartitionType.ListedDescribed | libvsmbr/libvsmbr_partition_type.c:30-151 | every listed type is described by its own row |
| PartitionType.UnlistedUnknown | libvsmbr/libvsmbr_partition_type.c:30-151 | every unlisted type is "Unknown" |
| PartitionType.ExtendedChsDescribed | libvsmbr/libvsmbr_partition_type.c:35 | 0x05 is "Extended (CHS)" |
| PartitionType.ExtendedLbaDescribed | libvsmbr/libvsmbr_partition_type.c:44 | 0x0f is "Extended (LBA)" |
| PartitionType.NtfsDescribed | libvsmbr/libvsmbr_partition_type.c:37 | 0x07 is "HPFS/NTFS/exFAT" |
| PartitionType.WinReDescribed | libvsmbr/libvsmbr_partition_type.c:56 | 0x27 is "Hidden NTFS Windows Recovery (WinRE)" |
| PartitionType.HfsDescribed | libvsmbr/libvsmbr_partition_type.c:100 | 0xaf is "HFS / HFS+" |
| PartitionType.SecondaryDescribed | libvsmbr/libvsmbr_partition_type.c:124-125 | 0xf2, listed after 0xf4, is "DOS secondary" |
| PartitionType.UnlistedDescribed | libvsmbr/libvsmbr_partition_type.c:132 | 0x0d, which has no row, is "Unknown" |
| VolumeType.VolumeTypesTerminated | libvsmbr/libvsmbr_volume_type.c:30-122 | the table has 92 rows and ends with the sentinel |
| VolumeType.DescribedAt | libvsmbr/libvsmbr_volume_type.c:126-141 | the first row holding the type or the sentinel gives the description |
| VolumeType.GetDescription | libvsmbr/libvsmbr_volume_type.c:126-141 | the description of a row holding the type or of the sentinel row, as the scan specifies |
| VolumeType.KeysAscendBeforeSwap | libvsmbr/libvsmbr_volume_type.c:30-115 | the type values ascend up to 0xf1 |
| VolumeType.KeysAscend | libvsmbr/libvsmbr_volume_type.c:30-122 | with 0xf4 and 0xf2 exchanged the type values ascend through the table |
| VolumeType.KeysDistinct | libvsmbr/libvsmbr_volume_type.c:30-122 | no type value has two rows |
| VolumeType.KeysAreBytes | libvsmbr/libvsmbr_volume_type.c:30-122 | every row before the sentinel holds a byte value |
| VolumeType.ListedDescribed | libvsmbr/libvsmbr_volume_type.c:30-141 | every listed type is described by its own row |
| VolumeType.UnlistedUnknown | libvsmbr/libvsmbr_volume_type.c:30-141 | every unlisted type is "Unknown" |
| VolumeType.ExtendedChsDescribed | libvsmbr/libvsmbr_volume_type.c:35 | 0x05 is "Extended (CHS)" |
| VolumeType.ExtendedLbaDescribed | libvsmbr/libvsmbr_volume_type.c:44 | 0x0f is "Extended (LBA)" |
| VolumeType.NtfsDescribed | libvsmbr/libvsmbr_volume_type.c:37 | 0x07 is "HPFS/NTFS" |
| VolumeType.MacOsDescribed | libvsmbr/libvsmbr_volume_type.c:96 | 0xaf is "MacOS-X" |
| VolumeType.WinReUnlisted | libvsmbr/libvsmbr_volume_type.c:122 | 0x27, which has no row here, is "Unknown" |
| VolumeType.TablesDisagreeOn27 | libvsmbr/libvsmbr_volume_type.c:30-122 | the two tables describe 0x27 differently |
| VolumeType.TablesDisagreeOnNtfs | libvsmbr/libvsmbr_volume_type.c:37 | the two tables describe 0x07 differently |

## Left out

- Constants that `libvsmbr_definitions.h` and the libyal support libraries define are not part of this model. The values used are the libyal conventions:
  - `LIBVSMBR_ACCESS_FLAG_READ` = 1 and `LIBVSMBR_ACCESS_FLAG_WRITE` = 2;
  - `LIBVSMBR_MAXIMUM_RECURSION_DEPTH` = 256;
  - `LIBVSMBR_ENDIAN_BIG`/`LITTLE` = 'b'/'l';
  - `MEMORY_MAXIMUM_ALLOCATION_SIZE` = 128 MiB;
  - `SSIZE_MAX` = 2^63 - 1.
- IoHandle.Clear: the body of `libvsmbr_io_handle_clear` is not part of this model. It is taken to restore the values initialize sets.
- Handle.Handle.Open: the handle walk has no depth bound, so it is given fuel. A result of `None` means the walk has not finished within that many chain links. It is not an error the library reports.
- Handle.Handle.ReadHandle, Handle.Handle.ReadPartitionEntries: the same fuel bound applies.
- IoHandle.ReadEprs: the same fuel bound applies.
- Handle.Handle.Close: the opened-in-library flag is not reset, as written.
- The libbfio handle is reduced to the bytes of the source plus open/openable flags. These are not modelled:
  - file names;
  - the wide-character open variants (`*_open`, `*_open_wide`, `check_volume_signature_wide`), which only create a file IO handle and call the file IO handle variant;
  - libbfio's own failures other than open failures, reads from a handle that is not open and short reads;
  - `libbfio_handle_is_open` returning -1.
- Memory allocation failures, libcdata array failures and the read/write locks are not modelled. Each is a failure path or a concurrency guard with no effect on a successful result.
- The `partition_entry == NULL` branches of both walks (Runtime/ValueMissing) are left out: a boot record read by the model never holds a NULL entry.
- The libcerror error chain is not modelled: every function returns the error it sets itself, not the backtrace.
- Debug output, `libvsmbr_debug.c` and the codepage functions are left out.
- Partition.Partition.ReadBufferFromFileIoHandle, Partition.SeekOffset, Partition.ReadBuffer: `libvsmbr_partition.c` only allocates and frees partitions. The cursor behaviour and the error codes chosen for it are taken from the library's tests and bindings.
- Partition.Initialize: a partition in the source has no region; the model's is set by the constructor from partition values.
- SectorData.SectorData.ReadFileIoHandle: the branch that refuses a sector data without a buffer cannot arise here, as the buffer always exists. On a short read the model leaves the buffer unchanged, where the C code leaves the bytes it read.
- `libvsmbr_partition_read_element_data`, the libfdata callback in `libvsmbr_sector_data.c`, is not part of this model. It belongs to a caching layer the core does not use.
- The type tables hold the descriptions of debug builds only (`HAVE_DEBUG_OUTPUT`). The model keeps them unconditionally.

## Findings

| source | as written | input that shows it | evidently intended | confidence | as-written member | corrected member |
|---|---|---|---|---|---|---|
| libvsmbr/libvsmbr_handle.c:978-1125 | the handle walk follows a 0x05 entry to `file_offset + lba * bytes_per_sector` with no check of that offset and no depth bound | an image whose MBR links (0x05, LBA 1) to an EPR at byte 512 whose own 0x05 entry has LBA 0, pointing back to itself | refuse a link to offset 0 or back to the same table, as the volume walk of `libvsmbr_volume.c` does (lines 1283-1296), so that opening fails instead of recursing without end | not executed | ChainComparison.HandleWalkDiverges | ChainComparison.VolumeWalkRejects |
