/** The three packed on-disk records the reader overlays on the image:
    the BIOS Parameter Block (BootRecord), the FAT12/16 extended BIOS
    Parameter Block (ExtendedBootRecord) and the 32-byte short directory
    entry (DirectoryEntry). Each decoder reads its fields at the offsets the
    packed C layout gives them; each encoder is its inverse. */
module Layout {
  import opened Bytes

  const BootRecordSize: nat := 36
  const ExtendedBootRecordSize: nat := 476
  const DirectoryEntrySize: nat := 32
  /** The header the reader consumes first: both boot records back to back. */
  const HeaderSize: nat := BootRecordSize + ExtendedBootRecordSize

  /** BIOS Parameter Block, bytes 0..35 of the first sector. */
  datatype BootRecord = BootRecord(
    jmpShortNop: seq<byte>,         // 3 bytes at 0
    oemIdentifier: seq<byte>,       // 8 bytes at 3
    bytesPerSector: u16,            // at 11
    sectorsPerCluster: byte,        // at 13
    reservedSectors: u16,           // at 14
    fatCount: byte,                 // at 16
    rootDirEntriesCount: u16,       // at 17
    totalSectors: u16,              // at 19
    mediaDescriptor: byte,          // at 21
    sectorsPerFat: u16,             // at 22
    sectorsPerTrack: u16,           // at 24
    heads: u16,                     // at 26
    hiddenSectors: u32,             // at 28
    largeSectorCount: u32)          // at 32
  {
    /** The character arrays have the lengths the struct gives them. */
    predicate WellFormed() {
      |jmpShortNop| == 3 && |oemIdentifier| == 8
    }
  }

  /** Extended BIOS Parameter Block, bytes 36..511 of the first sector
      (offsets below are relative to byte 36). */
  datatype ExtendedBootRecord = ExtendedBootRecord(
    driveNumber: byte,              // at 0
    reservedWindowsNt: byte,        // at 1
    signature: byte,                // at 2
    volumeId: u32,                  // at 3
    volumeLabel: seq<byte>,         // 11 bytes at 7
    systemIdentifier: seq<byte>,    // 8 bytes at 18
    bootCode: seq<byte>,            // 448 bytes at 26
    bootSignature: u16)             // at 474
  {
    predicate WellFormed() {
      |volumeLabel| == 11 && |systemIdentifier| == 8 && |bootCode| == 448
    }
  }

  /** Short (8.3) root-directory entry. */
  datatype DirectoryEntry = DirectoryEntry(
    fileName: seq<byte>,                 // 11 bytes at 0
    attribute: byte,                     // at 11
    reservedWindowsNt: byte,             // at 12
    creationTimeInHundredthSecs: byte,   // at 13
    createdTime: u16,                    // at 14
    createdDate: u16,                    // at 16
    lastAccessedDate: u16,               // at 18
    alwaysZero: u16,                     // at 20
    lastModifiedTime: u16,               // at 22
    lastModifiedDate: u16,               // at 24
    firstClusterNumber: u16,             // at 26
    fileSizeInBytes: u32)                // at 28
  {
    predicate WellFormed() {
      |fileName| == 11
    }
  }

  function DecodeBootRecord(b: seq<byte>): (r: BootRecord)
    requires |b| == BootRecordSize
    ensures r.WellFormed()
  {
    BootRecord(
      b[0..3], b[3..11], U16At(b, 11), b[13], U16At(b, 14), b[16],
      U16At(b, 17), U16At(b, 19), b[21], U16At(b, 22), U16At(b, 24),
      U16At(b, 26), U32At(b, 28), U32At(b, 32))
  }

  function EncodeBootRecord(r: BootRecord): (b: seq<byte>)
    requires r.WellFormed()
    ensures |b| == BootRecordSize
  {
    r.jmpShortNop + r.oemIdentifier + Le16(r.bytesPerSector) + [r.sectorsPerCluster]
    + Le16(r.reservedSectors) + [r.fatCount] + Le16(r.rootDirEntriesCount)
    + Le16(r.totalSectors) + [r.mediaDescriptor] + Le16(r.sectorsPerFat)
    + Le16(r.sectorsPerTrack) + Le16(r.heads) + Le32(r.hiddenSectors)
    + Le32(r.largeSectorCount)
  }

  function DecodeExtendedBootRecord(b: seq<byte>): (r: ExtendedBootRecord)
    requires |b| == ExtendedBootRecordSize
    ensures r.WellFormed()
  {
    ExtendedBootRecord(
      b[0], b[1], b[2], U32At(b, 3), b[7..18], b[18..26], b[26..474], U16At(b, 474))
  }

  function EncodeExtendedBootRecord(r: ExtendedBootRecord): (b: seq<byte>)
    requires r.WellFormed()
    ensures |b| == ExtendedBootRecordSize
  {
    [r.driveNumber, r.reservedWindowsNt, r.signature] + Le32(r.volumeId)
    + r.volumeLabel + r.systemIdentifier + r.bootCode + Le16(r.bootSignature)
  }

  function DecodeDirectoryEntry(b: seq<byte>): (e: DirectoryEntry)
    requires |b| == DirectoryEntrySize
    ensures e.WellFormed()
  {
    DirectoryEntry(
      b[0..11], b[11], b[12], b[13], U16At(b, 14), U16At(b, 16), U16At(b, 18),
      U16At(b, 20), U16At(b, 22), U16At(b, 24), U16At(b, 26), U32At(b, 28))
  }

  function EncodeDirectoryEntry(e: DirectoryEntry): (b: seq<byte>)
    requires e.WellFormed()
    ensures |b| == DirectoryEntrySize
  {
    e.fileName + [e.attribute, e.reservedWindowsNt, e.creationTimeInHundredthSecs]
    + Le16(e.createdTime) + Le16(e.createdDate) + Le16(e.lastAccessedDate)
    + Le16(e.alwaysZero) + Le16(e.lastModifiedTime) + Le16(e.lastModifiedDate)
    + Le16(e.firstClusterNumber) + Le32(e.fileSizeInBytes)
  }

  // ---------------------------------------------------------------------
  // Field offsets

  /** Every BPB field is read little-endian at its packed offset. */
  lemma BootRecordOffsets(b: seq<byte>)
    requires |b| == BootRecordSize
    ensures var r := DecodeBootRecord(b);
      && r.jmpShortNop == b[0..3] && r.oemIdentifier == b[3..11]
      && r.bytesPerSector == b[11] + 256 * (b[12] as int)
      && r.sectorsPerCluster == b[13]
      && r.reservedSectors == b[14] + 256 * (b[15] as int)
      && r.fatCount == b[16]
      && r.rootDirEntriesCount == b[17] + 256 * (b[18] as int)
      && r.totalSectors == b[19] + 256 * (b[20] as int)
      && r.mediaDescriptor == b[21]
      && r.sectorsPerFat == b[22] + 256 * (b[23] as int)
      && r.sectorsPerTrack == b[24] + 256 * (b[25] as int)
      && r.heads == b[26] + 256 * (b[27] as int)
      && r.hiddenSectors == b[28] + 256 * (b[29] as int) + 65536 * (b[30] as int) + 16777216 * (b[31] as int)
      && r.largeSectorCount == b[32] + 256 * (b[33] as int) + 65536 * (b[34] as int) + 16777216 * (b[35] as int)
  {
  }

  /** Every extended-BPB field is read at its packed offset, counted from
      the start of the extended record (byte 36 of the sector). */
  lemma ExtendedBootRecordOffsets(b: seq<byte>)
    requires |b| == ExtendedBootRecordSize
    ensures var r := DecodeExtendedBootRecord(b);
      && r.driveNumber == b[0] && r.reservedWindowsNt == b[1] && r.signature == b[2]
      && r.volumeId == b[3] + 256 * (b[4] as int) + 65536 * (b[5] as int) + 16777216 * (b[6] as int)
      && r.volumeLabel == b[7..18] && r.systemIdentifier == b[18..26]
      && r.bootCode == b[26..474]
      && r.bootSignature == b[474] + 256 * (b[475] as int)
  {
  }

  /** Every directory-entry field is read little-endian at its packed offset:
      name 0..10, attribute 11, first cluster 26..27, size 28..31. */
  lemma DirectoryEntryOffsets(b: seq<byte>)
    requires |b| == DirectoryEntrySize
    ensures var e := DecodeDirectoryEntry(b);
      && e.fileName == b[0..11] && e.attribute == b[11]
      && e.reservedWindowsNt == b[12] && e.creationTimeInHundredthSecs == b[13]
      && e.createdTime == b[14] + 256 * (b[15] as int)
      && e.createdDate == b[16] + 256 * (b[17] as int)
      && e.lastAccessedDate == b[18] + 256 * (b[19] as int)
      && e.alwaysZero == b[20] + 256 * (b[21] as int)
      && e.lastModifiedTime == b[22] + 256 * (b[23] as int)
      && e.lastModifiedDate == b[24] + 256 * (b[25] as int)
      && e.firstClusterNumber == b[26] + 256 * (b[27] as int)
      && e.fileSizeInBytes == b[28] + 256 * (b[29] as int) + 65536 * (b[30] as int) + 16777216 * (b[31] as int)
  {
  }

  // ---------------------------------------------------------------------
  // Round trips

  lemma BootRecordDecodeEncode(r: BootRecord)
    requires r.WellFormed()
    ensures DecodeBootRecord(EncodeBootRecord(r)) == r
  {
    Le16RoundTrip(r.bytesPerSector);
    Le16RoundTrip(r.reservedSectors);
    Le16RoundTrip(r.rootDirEntriesCount);
    Le16RoundTrip(r.totalSectors);
    Le16RoundTrip(r.sectorsPerFat);
    Le16RoundTrip(r.sectorsPerTrack);
    Le16RoundTrip(r.heads);
    Le32RoundTrip(r.hiddenSectors);
    Le32RoundTrip(r.largeSectorCount);
  }

  lemma BootRecordEncodeDecode(b: seq<byte>)
    requires |b| == BootRecordSize
    ensures EncodeBootRecord(DecodeBootRecord(b)) == b
  {
    U16RoundTrip(b, 11);
    U16RoundTrip(b, 14);
    U16RoundTrip(b, 17);
    U16RoundTrip(b, 19);
    U16RoundTrip(b, 22);
    U16RoundTrip(b, 24);
    U16RoundTrip(b, 26);
    U32RoundTrip(b, 28);
    U32RoundTrip(b, 32);
  }

  lemma ExtendedBootRecordDecodeEncode(r: ExtendedBootRecord)
    requires r.WellFormed()
    ensures DecodeExtendedBootRecord(EncodeExtendedBootRecord(r)) == r
  {
    Le32RoundTrip(r.volumeId);
    Le16RoundTrip(r.bootSignature);
  }

  lemma ExtendedBootRecordEncodeDecode(b: seq<byte>)
    requires |b| == ExtendedBootRecordSize
    ensures EncodeExtendedBootRecord(DecodeExtendedBootRecord(b)) == b
  {
    U32RoundTrip(b, 3);
    U16RoundTrip(b, 474);
  }

  lemma DirectoryEntryDecodeEncode(e: DirectoryEntry)
    requires e.WellFormed()
    ensures DecodeDirectoryEntry(EncodeDirectoryEntry(e)) == e
  {
    Le16RoundTrip(e.createdTime);
    Le16RoundTrip(e.createdDate);
    Le16RoundTrip(e.lastAccessedDate);
    Le16RoundTrip(e.alwaysZero);
    Le16RoundTrip(e.lastModifiedTime);
    Le16RoundTrip(e.lastModifiedDate);
    Le16RoundTrip(e.firstClusterNumber);
    Le32RoundTrip(e.fileSizeInBytes);
  }

  lemma DirectoryEntryEncodeDecode(b: seq<byte>)
    requires |b| == DirectoryEntrySize
    ensures EncodeDirectoryEntry(DecodeDirectoryEntry(b)) == b
  {
    U16RoundTrip(b, 14);
    U16RoundTrip(b, 16);
    U16RoundTrip(b, 18);
    U16RoundTrip(b, 20);
    U16RoundTrip(b, 22);
    U16RoundTrip(b, 24);
    U16RoundTrip(b, 26);
    U32RoundTrip(b, 28);
  }

  /** The header fills exactly one 512-byte sector, the extended record
      starting at byte 36 and its boot signature taking the last two bytes. */
  lemma HeaderIsOneSector(h: seq<byte>)
    requires |h| == HeaderSize
    ensures HeaderSize == 512 && BootRecordSize + 474 == 510
    ensures DecodeExtendedBootRecord(h[BootRecordSize..]).bootSignature == h[510] + 256 * (h[511] as int)
    ensures DecodeExtendedBootRecord(h[BootRecordSize..]).driveNumber == h[36]
  {
    var x := h[BootRecordSize..];
    assert x[474] == h[510] && x[475] == h[511] && x[0] == h[36];
  }

  // ---------------------------------------------------------------------
  // Size of the allocation-table section

  /** Largest value the three BPB fields can multiply to. */
  const MaxFatTableSize: nat := 255 * 65535 * 65535

  /** Bytes taken by all allocation-table copies:
      fat_count * sectors_per_fat * bytes_per_sector, computed exactly.
      It is never negative, never above MaxFatTableSize (so it fits a 64-bit
      file offset), and zero exactly when one of the three fields is zero. */
  function FatTableSize(br: BootRecord): (n: nat)
    ensures n <= MaxFatTableSize < 0x8000_0000_0000_0000
    ensures n == 0 <==> br.fatCount == 0 || br.sectorsPerFat == 0 || br.bytesPerSector == 0
  {
    var f: nat, s: nat, b: nat := br.fatCount, br.sectorsPerFat, br.bytesPerSector;
    ProductBound(f, s, b);
    f * s * b
  }

  /** The size read straight from the bytes of an image: fat_count is
      byte 16, sectors_per_fat bytes 22..23 and bytes_per_sector bytes
      11..12, little-endian. */
  lemma FatTableSizeFromBytes(image: seq<byte>)
    requires BootRecordSize <= |image|
    ensures FatTableSize(DecodeBootRecord(image[..BootRecordSize]))
         == image[16] * (image[22] + 256 * (image[23] as int)) * (image[11] + 256 * (image[12] as int))
  {
    var b := image[..BootRecordSize];
    BootRecordOffsets(b);
    assert b[11] == image[11] && b[12] == image[12] && b[16] == image[16];
    assert b[22] == image[22] && b[23] == image[23];
  }

  lemma ProductBound(f: nat, s: nat, b: nat)
    requires f <= 255 && s <= 65535 && b <= 65535
    ensures f * s * b <= MaxFatTableSize
    ensures f * s * b == 0 <==> f == 0 || s == 0 || b == 0
  {
    MulMonotone(f, 255, s);
    MulMonotone(s, 65535, 255);
    MulMonotone(f * s, 255 * 65535, b);
    MulMonotone(b, 65535, 255 * 65535);
    if f != 0 && s != 0 && b != 0 {
      MulMonotone(1, f, s);
      MulMonotone(1, f * s, b);
    }
  }

  lemma MulMonotone(a: nat, a': nat, c: nat)
    requires a <= a'
    ensures a * c <= a' * c
  {
  }

  /** The value C's `int` holds after the multiplication: the exact product
      reduced into the signed 32-bit range, which is what the product becomes
      on two's-complement targets once it passes INT_MAX (for the C standard
      that overflow is undefined). */
  function Int32Wrap(x: int): (r: int)
    ensures -0x8000_0000 <= r < 0x8000_0000
    ensures (x - r) % 0x1_0000_0000 == 0
    ensures -0x8000_0000 <= x < 0x8000_0000 ==> r == x
  {
    var m := x % 0x1_0000_0000;
    if m < 0x8000_0000 then m else m - 0x1_0000_0000
  }

  /** `int fat_table_size` as the source computes it. */
  function FatTableSizeAsWritten(br: BootRecord): int
  {
    Int32Wrap(FatTableSize(br))
  }

  /** The source's int agrees with the exact size if and only if the exact
      size is at most INT_MAX. */
  lemma FatTableSizeAsWrittenExactIff(br: BootRecord)
    ensures FatTableSizeAsWritten(br) == FatTableSize(br) <==> FatTableSize(br) < 0x8000_0000
  {
  }

  /** A header the 16-bit and 8-bit fields can express whose product is
      2^31: 512 bytes per sector, one reserved sector, 128 tables of 0x8000
      sectors each. The source's int becomes INT_MIN, so the seek from the
      end of the header targets a negative offset. That fseek fails and
      leaves the position at 512, which for this header is where the
      allocation tables start, so the three entries are read from the
      first table instead of the root directory. */
  lemma FatTableSizeOverflowWitness()
    ensures var br := BootRecord([0xEB, 0x3C, 0x90], [0, 0, 0, 0, 0, 0, 0, 0],
                                 512, 1, 1, 128, 224, 2880, 0xF0, 0x8000, 18, 2, 0, 0);
            && FatTableSize(br) == 0x8000_0000 && FatTableSizeAsWritten(br) == -0x8000_0000
            && HeaderSize + FatTableSizeAsWritten(br) < 0
            && br.reservedSectors * br.bytesPerSector == HeaderSize
  {
    var br := BootRecord([0xEB, 0x3C, 0x90], [0, 0, 0, 0, 0, 0, 0, 0],
                         512, 1, 1, 128, 224, 2880, 0xF0, 0x8000, 18, 2, 0, 0);
    assert FatTableSize(br) == 128 * 0x8000 * 512 == 0x8000_0000;
  }

  // ---------------------------------------------------------------------
  // Where the reader looks for the root directory

  /** The reader consumes the 512-byte header and then skips the tables. */
  function ReaderRootDirectoryOffset(br: BootRecord): nat
  {
    HeaderSize + FatTableSize(br)
  }

  /** Where the BPB geometry puts the root directory: after the reserved
      sectors and the table copies. */
  function GeometryRootDirectoryOffset(br: BootRecord): nat
  {
    br.reservedSectors * br.bytesPerSector + FatTableSize(br)
  }

  /** The reader finds the root directory where the geometry puts it if and
      only if the reserved section is exactly one 512-byte sector's worth
      of bytes. */
  lemma RootDirectoryOffsetAgreement(br: BootRecord)
    ensures ReaderRootDirectoryOffset(br) == GeometryRootDirectoryOffset(br)
            <==> br.reservedSectors * br.bytesPerSector == 512
  {
  }
}
