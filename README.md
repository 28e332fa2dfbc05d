# FAT12 disk reader — a verified model

`src/fat_12_disk_reader.c` opens a FAT12 floppy image named on the command
line and dumps parts of it. It reads the 512-byte header as two packed
structs, the BIOS Parameter Block (`BootRecord`, 36 bytes) and the extended
BPB (`ExtendedBootRecord`, 476 bytes). It prints a few of their fields in hex,
then seeks past every copy of the file allocation table
(`fat_count * sectors_per_fat * bytes_per_sector` bytes). Last, it reads the
three 32-byte records (`DirectoryEntry`) that follow and prints each field.
Those records are the first root-directory entries only when
`reserved_sectors * bytes_per_sector` is 512, because the reader always
takes the reserved region to be the 512-byte header.

The model has five modules, one file each:

- `bytes.dfy` — module `Bytes`: bytes, `uint16_t`/`uint32_t`, and their
  little-endian encodings, with round trips both ways.
- `layout.dfy` — module `Layout`: the three packed structs as datatypes.
  Each has a decoder from exactly its byte count and an encoder back. Lemmas
  give each field's offset, the round trips and the 512-byte header layout.
  The size of the allocation-table section is here too, both exact and as
  the source's `int` holds it.
- `dump.dfy` — module `Dump`: `print_hex` and `print_string` as pure
  functions on strings, plus loop methods proved against them. Standard
  output is a sequence of print calls (`Output`); `Render` gives its text.
- `report.dfy` — module `Report`: which print calls `read_boot_drive_section`
  and `print_directory_entry` make, with their exact labels. Two lemmas show
  that every dumped field is the raw image bytes at that field's offset.
- `reader.dfy` — module `Reader`: the class `DiskReader`. It holds the image
  (immutable), the file position `pos`, the two global records and the print
  calls made so far. Its methods model the three reading steps with exact
  offsets. `Execute` models `main`.

Characters stand for bytes: the string `print_string` emits holds, at each
index, the character whose code is the byte printed.

## Model

| member | source | states |
|---|---|---|
| Bytes.Le16RoundTrip | src/fat_12_disk_reader.c:10 | encoding a `uint16_t` as its two little-endian bytes and reading them back gives the same value |
| Bytes.U16RoundTrip | src/fat_12_disk_reader.c:10 | reading two bytes as a little-endian `uint16_t` and re-encoding it gives back the same two bytes |
| Bytes.Le32RoundTrip | src/fat_12_disk_reader.c:20-21 | encoding a `uint32_t` as its four little-endian bytes and reading them back gives the same value |
| Bytes.U32RoundTrip | src/fat_12_disk_reader.c:20-21 | reading four bytes as a little-endian `uint32_t` and re-encoding it gives back the same four bytes |
| Layout.BootRecordOffsets | src/fat_12_disk_reader.c:7-22 | decoding 36 bytes reads every BPB field at its packed offset, little-endian: `bytes_per_sector` = b[11] + 256·b[12], `sectors_per_cluster` = b[13], `fat_count` = b[16], `sectors_per_fat` from b[22..24], `large_sector_count` from b[32..36], and so on |
| Layout.ExtendedBootRecordOffsets | src/fat_12_disk_reader.c:25-34 | decoding 476 bytes reads every extended-BPB field at its packed offset: drive number at 0, volume id at 3..7, label at 7..18, system id at 18..26, boot code at 26..474, boot signature at 474..476 |
| Layout.DirectoryEntryOffsets | src/fat_12_disk_reader.c:36-49 | decoding 32 bytes reads every entry field at its packed offset: name at 0..11, attribute at 11, first cluster at 26..28, file size at 28..32, and so on |
| Layout.BootRecordDecodeEncode | src/fat_12_disk_reader.c:7-22 | encoding a well-formed BootRecord and decoding the 36 bytes gives the same record |
| Layout.BootRecordEncodeDecode | src/fat_12_disk_reader.c:7-22 | decoding any 36 bytes and encoding the record gives back the same bytes, so the layout covers every byte exactly once |
| Layout.ExtendedBootRecordDecodeEncode | src/fat_12_disk_reader.c:25-34 | encode then decode is the identity on well-formed extended records |
| Layout.ExtendedBootRecordEncodeDecode | src/fat_12_disk_reader.c:25-34 | decode then encode is the identity on any 476 bytes |
| Layout.DirectoryEntryDecodeEncode | src/fat_12_disk_reader.c:36-49 | encode then decode is the identity on well-formed entries |
| Layout.DirectoryEntryEncodeDecode | src/fat_12_disk_reader.c:36-49 | decode then encode is the identity on any 32 bytes |
| Layout.HeaderIsOneSector | src/fat_12_disk_reader.c:97-98 | the two structs read back to back fill exactly 512 bytes; the extended record starts at byte 36 and its boot signature is bytes 510–511 |
| Layout.FatTableSize | src/fat_12_disk_reader.c:122 | the bytes taken by all table copies are never negative and never above 255·65535·65535, and are zero exactly when one of the three fields is zero |
| Layout.Int32Wrap | src/fat_12_disk_reader.c:122 | the value an `int` holds is in the signed 32-bit range, congruent to the exact value modulo 2^32, and equal to it when it fits |
| Layout.FatTableSizeAsWrittenExactIff | src/fat_12_disk_reader.c:122 | the source's `int fat_table_size` equals the exact product if and only if the product is below 2^31 |
| Layout.FatTableSizeFromBytes | src/fat_12_disk_reader.c:122 | the table size is image[16] · (image[22] + 256·image[23]) · (image[11] + 256·image[12]), read straight from the image bytes |
| Layout.FatTableSizeOverflowWitness | src/fat_12_disk_reader.c:122-127 | a header with 512 bytes per sector, one reserved sector, 128 tables and 0x8000 sectors per table has an exact size of 2^31, which the `int` holds as −2^31, so the seek from offset 512 targets a negative offset; its reserved region is exactly the 512-byte header |
| Layout.RootDirectoryOffsetAgreement | src/fat_12_disk_reader.c:92-128 | the reader, which consumes 512 header bytes and then skips the tables, lands where the BPB geometry puts the root directory if and only if `reserved_sectors * bytes_per_sector` is 512 |
| Dump.HexDigit | src/fat_12_disk_reader.c:79 | a `%02X` digit is `0`–`9` or an upper-case `A`–`F` |
| Dump.DigitRoundTrip | src/fat_12_disk_reader.c:79 | the digit printed for a nibble reads back to that nibble |
| Dump.HexCell | src/fat_12_disk_reader.c:79 | `"%02X "` prints three characters, the last a space |
| Dump.CellRoundTrip | src/fat_12_disk_reader.c:79 | the three characters printed for a byte read back to that byte |
| Dump.HexCellsAt | src/fat_12_disk_reader.c:78-80 | the loop prints three characters per byte, and byte i's cell sits at 3·i |
| Dump.ParseHexCellsRoundTrip | src/fat_12_disk_reader.c:78-80 | reading the loop's cells back, front to back, gives exactly the bytes printed |
| Dump.HexLineShape | src/fat_12_disk_reader.c:77-81 | a `print_hex` line is \|label\| + 3 + 3·size + 1 characters long, and the cell at column \|label\| + 3 + 3·i is byte i's and reads back to it |
| Dump.HexLineRoundTrip | src/fat_12_disk_reader.c:77-81 | the part of a `print_hex` line between the separator and the newline reads back to exactly the bytes printed |
| Dump.Verbatim | src/fat_12_disk_reader.c:86-88 | the `%c` loop prints exactly size characters, the i-th carrying byte i |
| Dump.StringLineShape | src/fat_12_disk_reader.c:84-90 | a `print_string` line is the label, `": \t"`, exactly size characters copied from the input, then the character `'\n'` |
| Dump.PrintHex | src/fat_12_disk_reader.c:63-82 | the loop of `print_hex` prints exactly `HexLine(label, bytes)` |
| Dump.PrintString | src/fat_12_disk_reader.c:84-90 | the loop of `print_string` prints exactly `StringLine(label, bytes)` |
| Dump.RenderAppend | src/fat_12_disk_reader.c:160-165 | the text of two runs of print calls made one after the other is the first text followed by the second |
| Report.BootSectionOutputShowsImageBytes | src/fat_12_disk_reader.c:101-112 | the boot-sector dump of a 512-byte header equals `HeaderDump`: in order and with its exact labels, the raw bytes 0..3, 3..11, 11..13, 13, a blank line, then 36, 39..43, 43..54, 54..62, 510..512 and a blank line |
| Report.EntryOutputShowsImageBytes | src/fat_12_disk_reader.c:130-144 | the dump of a 32-byte entry equals `EntryDump`: it prints the name verbatim from bytes 0..11, then every other field's raw bytes in hex at its packed offset, then a blank line |
| Reader.RootEntries | src/fat_12_disk_reader.c:145-151 | the entries read from `start` are `count` long, and entry k is decoded from the 32 bytes at start + 32·k |
| Reader.RootEntriesCoverImage | src/fat_12_disk_reader.c:145-151 | re-encoding the entries read from `start`, end to end, gives back exactly the 32·count bytes they were read from |
| Reader.DiskReader.constructor | src/fat_12_disk_reader.c:51-57 | after a successful open the position is 0, nothing has been printed, and every field of both global records is zero |
| Reader.DiskReader.ReadBootDriveSection | src/fat_12_disk_reader.c:92-113 | the position moves on by exactly 512; the two records become the decodings of the 36 and the next 476 bytes; the boot-sector dump of those records is appended to the output; nothing else changes |
| Reader.DiskReader.ReadFileAllocationTableSection | src/fat_12_disk_reader.c:115-128 | only the position changes, and it moves forward by exactly `fat_count * sectors_per_fat * bytes_per_sector` |
| Reader.DiskReader.ReadDirectoryEntry | src/fat_12_disk_reader.c:148-149 | one pass reads the 32 bytes at the position, moves on by 32 and appends that entry's dump |
| Reader.DiskReader.ReadRootDirectory | src/fat_12_disk_reader.c:145-151 | the loop decodes exactly 3 consecutive entries from the position, moves on by 96 and appends their dumps in order |
| Reader.ThreeEntriesShowImageBytes | src/fat_12_disk_reader.c:145-151 | the dumps of the three entries read from `start` are the raw dumps of the 32-byte records at start, start + 32 and start + 64 |
| Reader.SessionOutputShowsImageBytes | src/fat_12_disk_reader.c:162-165 | everything a run prints after the banner is the boot-sector dump of image bytes 0..511, then the raw dumps of the three records at s, s + 32 and s + 64. Here s = 512 + fat_count · sectors_per_fat · bytes_per_sector, each factor read from the image bytes |
| Reader.ReadImage | src/fat_12_disk_reader.c:162-165 | the three reads in order print the boot-sector dump of image[0..36] and image[36..512], then the dumps of the three entries that start at 512 + table size |
| Reader.Execute | src/fat_12_disk_reader.c:153-168 | with any argument count but one, main prints the usage line and returns 1; with one argument it prints the banner and the session dump and returns 0 |

## Left out

- Opening the file (`fopen`) is left out. The image is a parameter holding the file's content.
- The failed-open path is left out: the error message, then `fread` on a NULL handle, which is undefined behaviour in C.
- The return values of `fread` and `fseek` are never checked by the source. `CoversReads` is a precondition that the image is long enough for every read; a short image is not modelled.
- `printf` is not real output. Standard output is the sequence of print calls, and `Render` gives its text.
- Host endianness and `__attribute__((packed))` are not modelled. Offsets are explicit and multi-byte fields are decoded little-endian. `print_hex` dumps the bytes as they sit in memory, which are the raw image bytes on any host. Host byte order changes only the integer values the source computes with, namely `fat_table_size` at line 122; on a big-endian host that value would differ from the model's.
- `print_hex` and `print_string` take the bytes as a sequence, with `size` being its length. A negative or mismatched `size` is never passed by the source.
- `%c` writes a byte; the model writes the character whose code is that byte, with no character encoding.
- Fields that are only printed (timestamps, volume label, boot code) are decoded, but no meaning is given to them.
- `main` with argc 0 is left out: the program name is its own parameter, so the model always has `argv[0]`.
- Reader.Execute: "reads nothing when argc ≠ 2" holds only by construction, because the usage path never creates a `DiskReader`. No contract states it.
- Reader.DiskReader.ReadFileAllocationTableSection: it moves by the exact product, not by the value the source's `int` holds. The two differ only when the product is 2^31 or more (see Findings).
- Reader.ReadImage, Reader.SessionOutputShowsImageBytes and Reader.Execute: these inherit the exact product, so their output is what `main` prints only while `fat_count * sectors_per_fat * bytes_per_sector` is below 2^31.
- The source has no 12-bit allocation-table decoding, long-name handling or cluster-chain walking, so the model has none either.

## Findings

| source | as written | input that shows it | evidently intended | confidence | as-written member | corrected member |
|---|---|---|---|---|---|---|
| src/fat_12_disk_reader.c:122 | `int fat_table_size = fat_count * sectors_per_fat * bytes_per_sector` computes in `int`. The product can reach 255·65535·65535, which does not fit 32 bits. | a header with `bytes_per_sector` = 512, `reserved_sectors` = 1, `fat_count` = 128, `sectors_per_fat` = 0x8000: the product is 2^31, so `fat_table_size` overflows to −2^31 on two's-complement targets. The seek target 512 − 2^31 is negative, so `fseek` fails and the position stays at 512; the three entries are then read from byte 512, the start of the allocation tables. A wrapped value that stays positive instead skips the wrong distance forward | skip the full table region, all `fat_count * sectors_per_fat * bytes_per_sector` bytes | not executed | Layout.FatTableSizeOverflowWitness | Layout.FatTableSize |
