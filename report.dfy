/** What the reader prints for the boot sector and for each root directory
    entry: one print_hex / print_string call per field, with the labels the
    reader uses, and a blank line after each group. A field is dumped as the
    bytes it occupies in memory, so each dump shows the very image bytes the
    field was decoded from. */
module Report {
  import opened Bytes
  import opened Layout
  import opened Dump

  const JmpShortNopLabel: string := "JMP SHORT NOP       "
  const OemIdentifierLabel: string := "OEM IDENTIFIER      "
  const BytesPerSectorLabel: string := "BYTES PER SECTOR    "
  const SectorsPerClusterLabel: string := "SECTORS PER CLUSTER "
  const DriveNumberLabel: string := "DRIVE NUMBER        "
  const VolumeIdLabel: string := "VOLUME ID           "
  const VolumeLabelLabel: string := "VOLUME LABEL        "
  const SystemIdentifierLabel: string := "SYSTEM IDENTIFIER   "
  const BootSignatureLabel: string := "BOOT SIGNATURE      "

  const FileNameLabel: string := "FILE NAME                         "
  const AttributeLabel: string := "ATTRIBUTE                         "
  const ReservedWindowsNtLabel: string := "RESERVED WINDOWS NT               "
  const CreationTimeLabel: string := "CREATION TIME IN HUNDREDTH SECS   "
  const CreatedTimeLabel: string := "CREATED TIME                      "
  const CreatedDateLabel: string := "CREATED DATE                      "
  const LastAccessedDateLabel: string := "LAST ACCESSED DATE                "
  const AlwaysZeroLabel: string := "ALWAYS ZERO                       "
  const LastModifiedTimeLabel: string := "LAST MODIFIED TIME                "
  const LastModifiedDateLabel: string := "LAST MODIFIED DATE                "
  const FirstClusterNumberLabel: string := "FIRST CLUSTER NUMBER              "
  const FileSizeLabel: string := "FILE SIZE IN BYTES                "

  /** The calls read_boot_drive_section makes after reading the header: four
      BootRecord fields, a blank line, five ExtendedBootRecord fields, a
      blank line. */
  function BootSectionOutput(br: BootRecord, ebr: ExtendedBootRecord): seq<Output>
  {
    [ Hex(JmpShortNopLabel, br.jmpShortNop),
      Hex(OemIdentifierLabel, br.oemIdentifier),
      Hex(BytesPerSectorLabel, Le16(br.bytesPerSector)),
      Hex(SectorsPerClusterLabel, [br.sectorsPerCluster]),
      Newline,
      Hex(DriveNumberLabel, [ebr.driveNumber]),
      Hex(VolumeIdLabel, Le32(ebr.volumeId)),
      Hex(VolumeLabelLabel, ebr.volumeLabel),
      Hex(SystemIdentifierLabel, ebr.systemIdentifier),
      Hex(BootSignatureLabel, Le16(ebr.bootSignature)),
      Newline ]
  }

  /** The calls print_directory_entry makes: the name verbatim, every other
      field in hex, a blank line; EntryLine gives them one by one. */
  function EntryOutput(e: DirectoryEntry): seq<Output>
  {
    seq(13, i requires 0 <= i < 13 => EntryLine(e, i))
  }

  /** Call i of print_directory_entry. */
  function EntryLine(e: DirectoryEntry, i: nat): Output
    requires i < 13
  {
    match i
    case 0 => Str(FileNameLabel, e.fileName)
    case 1 => Hex(AttributeLabel, [e.attribute])
    case 2 => Hex(ReservedWindowsNtLabel, [e.reservedWindowsNt])
    case 3 => Hex(CreationTimeLabel, [e.creationTimeInHundredthSecs])
    case 4 => Hex(CreatedTimeLabel, Le16(e.createdTime))
    case 5 => Hex(CreatedDateLabel, Le16(e.createdDate))
    case 6 => Hex(LastAccessedDateLabel, Le16(e.lastAccessedDate))
    case 7 => Hex(AlwaysZeroLabel, Le16(e.alwaysZero))
    case 8 => Hex(LastModifiedTimeLabel, Le16(e.lastModifiedTime))
    case 9 => Hex(LastModifiedDateLabel, Le16(e.lastModifiedDate))
    case 10 => Hex(FirstClusterNumberLabel, Le16(e.firstClusterNumber))
    case 11 => Hex(FileSizeLabel, Le32(e.fileSizeInBytes))
    case _ => Newline
  }

  /** The calls for several entries, in order. */
  function EntriesOutput(es: seq<DirectoryEntry>): seq<Output>
    decreases |es|
  {
    if es == [] then [] else EntriesOutput(es[..|es| - 1]) + EntryOutput(es[|es| - 1])
  }

  /** The boot-sector dump written in terms of the raw 512-byte header: the
      image bytes at each printed field's packed offset, 0..2, 3..10,
      11..12, 13, then 36, 39..42, 43..53, 54..61 and 510..511. */
  function HeaderDump(h: seq<byte>): seq<Output>
    requires |h| == HeaderSize
  {
    [ Hex(JmpShortNopLabel, h[0..3]),
      Hex(OemIdentifierLabel, h[3..11]),
      Hex(BytesPerSectorLabel, h[11..13]),
      Hex(SectorsPerClusterLabel, h[13..14]),
      Newline,
      Hex(DriveNumberLabel, h[36..37]),
      Hex(VolumeIdLabel, h[39..43]),
      Hex(VolumeLabelLabel, h[43..54]),
      Hex(SystemIdentifierLabel, h[54..62]),
      Hex(BootSignatureLabel, h[510..512]),
      Newline ]
  }

  /** Read from a 512-byte header, the boot-sector dump shows each field as
      the raw image bytes at that field's packed offset. */
  lemma BootSectionOutputShowsImageBytes(h: seq<byte>)
    requires |h| == HeaderSize
    ensures BootSectionOutput(DecodeBootRecord(h[..BootRecordSize]),
                              DecodeExtendedBootRecord(h[BootRecordSize..]))
         == HeaderDump(h)
  {
    var b, x := h[..BootRecordSize], h[BootRecordSize..];
    var br, ebr := DecodeBootRecord(b), DecodeExtendedBootRecord(x);
    U16RoundTrip(b, 11);
    U32RoundTrip(x, 3);
    U16RoundTrip(x, 474);
    assert br.jmpShortNop == h[0..3] && br.oemIdentifier == h[3..11];
    assert Le16(br.bytesPerSector) == h[11..13];
    assert [br.sectorsPerCluster] == h[13..14];
    assert [ebr.driveNumber] == h[36..37];
    assert Le32(ebr.volumeId) == h[39..43];
    assert ebr.volumeLabel == h[43..54] && ebr.systemIdentifier == h[54..62];
    assert Le16(ebr.bootSignature) == h[510..512];
  }

  /** The dump of an entry written in terms of its raw 32 bytes: the name
      copied verbatim from bytes 0..10, every other field's bytes in hex. */
  function EntryDump(b: seq<byte>): seq<Output>
    requires |b| == DirectoryEntrySize
  {
    [ Str(FileNameLabel, b[0..11]),
      Hex(AttributeLabel, b[11..12]),
      Hex(ReservedWindowsNtLabel, b[12..13]),
      Hex(CreationTimeLabel, b[13..14]),
      Hex(CreatedTimeLabel, b[14..16]),
      Hex(CreatedDateLabel, b[16..18]),
      Hex(LastAccessedDateLabel, b[18..20]),
      Hex(AlwaysZeroLabel, b[20..22]),
      Hex(LastModifiedTimeLabel, b[22..24]),
      Hex(LastModifiedDateLabel, b[24..26]),
      Hex(FirstClusterNumberLabel, b[26..28]),
      Hex(FileSizeLabel, b[28..32]),
      Newline ]
  }

  /** Each dump of an entry shows the raw bytes of the 32-byte record at
      that field's packed offset; the name is copied verbatim. */
  lemma EntryOutputShowsImageBytes(b: seq<byte>)
    requires |b| == DirectoryEntrySize
    ensures EntryOutput(DecodeDirectoryEntry(b)) == EntryDump(b)
  {
    var e := DecodeDirectoryEntry(b);
    U16RoundTrip(b, 14);
    U16RoundTrip(b, 16);
    U16RoundTrip(b, 18);
    U16RoundTrip(b, 20);
    U16RoundTrip(b, 22);
    U16RoundTrip(b, 24);
    U16RoundTrip(b, 26);
    U32RoundTrip(b, 28);
    assert Le16(e.createdTime) == b[14..16] && Le16(e.createdDate) == b[16..18];
    assert Le16(e.lastAccessedDate) == b[18..20] && Le16(e.alwaysZero) == b[20..22];
    assert Le16(e.lastModifiedTime) == b[22..24] && Le16(e.lastModifiedDate) == b[24..26];
    assert Le16(e.firstClusterNumber) == b[26..28] && Le32(e.fileSizeInBytes) == b[28..32];
    assert [e.attribute] == b[11..12] && [e.reservedWindowsNt] == b[12..13];
    assert [e.creationTimeInHundredthSecs] == b[13..14];
  }
}
