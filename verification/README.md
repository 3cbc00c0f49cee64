# CRAB server: proofs about a decoder, a stageout wrapper and four log processors

This project models six components of the CRAB server in Dafny and proves what they are there for:

- the DEFLATE, gzip and tar reader of the task monitor (`src/script/gzip.js`; RFC 1951 and RFC 1952),
- the stageout wrapper that runs on worker nodes (`scripts/cmscp.py`),
- the job-log status cache (`scripts/task_process/cache_status.py`),
- the injection of transfers into FTS and their polling (`scripts/task_process/FTS_Transfers.py`),
- the rewriting of DAGMan's nodes log before a resubmission (`scripts/AdjustSites.py`),
- the totals of bad input files (`scripts/Utils/ProcessBadFilesList.py`).

## How the files hang together

Bits are integers: a bit stream is one (possibly negative) integer whose low bits come first, so that a
stream that has run out of bytes goes on with ones, as it does in the program (`Bits`, `JsBits`,
`BitReader`). `Canonical` says what a vector of code lengths means. `Huffman`, `HuftInvariant`, `HuftSteps`
and `HuftBuild` model the lookup tables and their builder, and prove that walking the tables is decoding the
code. `Deflate` is the reference: a machine that knows code lengths, not tables, keeps everything it has put
out, and makes one small step at a time; `Runs` takes its runs apart and puts them together. `Inflater`
(with `Window` and `Walking`) is the program, a class with the `zip_` variables as fields, proved to put out
what the machine puts out, for every size of buffer. `BitStrings`, `Lz77`, `FixedCodes`, `Encoding`,
`RunLengths` and `Blocks` write streams and prove that the machine reads them back; `Refusals` says where the
program and the format part. `Crc32`, `GzipFile`, `Gunzip` and `Gzip` add the file around the stream, `Chunks`
and `Tar` the archive inside it, and `Archives` writes archives and proves that they are read back.

`Cmscp`, `JobLog`, `FtsSubmit`, `FtsPoll`, `AdjustSites` and `BadFiles` stand by themselves, and
`Checkpoints` and `JobLives` go on from `JobLog`; what the world outside answers (transfers, services, events,
lines that patterns have classified) is a parameter there, and every theorem is about all answers.

## What the code does against its own descriptions

- A dynamic block with more than 257 literal/length codes and no distance code is refused, though section
  3.2.7 of RFC 1951 allows it (`Refusals.RefusedBook`). `Blocks.BookRead` says for every way to write codes
  that the program goes on with them if and only if `Blocks.Accepted` holds.
- A single code of one bit for code lengths also reads the bit 1, as the same symbol (`Refusals.LoneCode`);
  every bit string begins with a code if and only if the lengths are complete (`Refusals.AllMeanSomething`).
- A bad last block ends decompression as if it were the end of the data: for a bad block `InflateInternal`
  returns 0 if and only if it is the last one (`Runs.BadIsLast`), and -1 otherwise. `Refusals.BadBlocks` has
  an input for each.
- The length check at the end of a gzip file takes the length modulo 2^32 - 1 and reads the length in the
  file as a signed number: it refuses right files of 2^31 bytes and more (`Gzip.SizeChecked`,
  `Gzip.SizeLimit`, `Gzip.LongFileRefused`).
- An output whose CRC is zero is not compared with the CRC in the file (`Gzip.AnyTrailer`;
  `Gzip.ZeroCrcUnchecked` has four such bytes).
- A tar file whose length is not a number blocks the reader for good (`Archives.NeverPassed`), and one with
  neither name nor content is taken for the end of the archive: all files of an archive are found if and only
  if there is none of that kind (`Archives.ArchiveRoundTrip`, `Archives.EntriesAre`).
- An empty tar header does not end the archive for later pieces. `Tar.GrowingPieces` and `Tar.NotQuiet` give
  the exact condition under which pieces do not matter, and `Tar.FileAfterEnd` an archive for which they do.
- `cmscp.py` ends with an exception exactly under the condition `Cmscp.Crashes`: among others for a policy
  that it does not know, where no output has a destination, where the report cannot be opened, and where the
  local manager fails to clean (its exception handler names a module, and so catches nothing).
- A failure to archive the logs is forgotten where the initialisation of direct stageout is forced on the
  exit code (a run that shows it: `Cmscp.ForgottenArchive`; exact condition: `Cmscp.ArchiveRecorded`), and
  logs are archived but never staged out if there are no outputs to transfer (`Cmscp.LogsWithoutOutputs`).
- In `parseJobLog` the histories of sites and of wall-clock times depend on where the log was cut
  (`JobLog.SitesDependOnCheckpoints`); `Checkpoints.SitesKeptExactly` and `Checkpoints.TimesKeptExactly` say
  exactly when they do not. All other histories, the state and the map of jobs do not depend on it, for
  `parseJobLog` by itself (`JobLog.CheckpointsDoNotMatter`).
- Between its calls the program overwrites the states by those of the node state file, and then restarts and
  start times may differ as well (`Checkpoints.OverlaysMatter`). `Checkpoints.RefreshExactly`, and for any
  number of runs `Checkpoints.RefreshesExactly`, say exactly when they do: if the first event after the file
  that looks at the state of the job, or sets it, counts differently in the two states. That no file takes a
  job out of being idle, running or held is sufficient (`Checkpoints.RefreshesDoNotMatter`), but not necessary.
- An update that the REST server has refused is not sent again, against the comment that it will be tried
  again: a run that shows it is `FtsPoll.RefusedUpdate`, and `FtsPoll.ReportedAgain` and
  `FtsPoll.ReportedTwice` say exactly what is reported again, namely files that were stuck.
- A stuck file for which FTS gives no reason makes the report of failures throw before it is sent, and its job
  stays on the list as long as this is so, whatever the server says (`FtsPoll.NeverLeaves`).
- If FTS lists the files of one job and throws for another, what the first has reported is lost
  (`FtsPoll.LostReport`, exactly when: `FtsPoll.LostExactly`).
- A nodes log without a node after a return value makes `AdjustSites.py` throw (a log: `AdjustSites.NoNode`;
  exactly when: `AdjustSites.CrashExactly`),
  and one that ends between a return value and its node is changed without a job being reported; only such a
  log is (`AdjustSites.CutOffRewritten`).

## Model

| member | source | states |
|---|---|---|
| Canonical.MatchUnique | src/script/gzip.js:572-667 | No bit string begins with the codes of two symbols: the codes that the lengths stand for by section 3.2.2 of RFC 1951 are prefix free. |
| Canonical.KraftAt | src/script/gzip.js:541-553 | Where the codes of the greatest length end tells whether the lengths give too many codes, just enough, or too few. |
| Canonical.CompleteMatches | src/script/gzip.js:671-673 | With complete lengths every bit string begins with the code of some symbol. |
| HuftSteps.BackwardsIncrement | src/script/gzip.js:656-659 | Read from the most significant bit on, the code goes up by one, and the last one becomes zero. |
| HuftSteps.FillEntries | src/script/gzip.js:647-654 | Exactly the entries whose first bits are those of the code get its entry. |
| HuftSteps.CountLengths | src/script/gzip.js:512-519 | The number of codes of each length. |
| HuftSteps.Offsets | src/script/gzip.js:555-561 | Where the symbols of each length begin in code order. |
| HuftSteps.SortSymbols | src/script/gzip.js:563-570 | The symbols in code order, and how many have a code. |
| HuftBuild.TryTables | src/script/gzip.js:592-601 | A table that needs more bits than its first try gets more, and never more than the longest code has left; as many as that if they are allowed. |
| HuftBuild.TableBits | src/script/gzip.js:590-604 | A new table has at least one bit and none beyond the longest code; a first table that may be as large as the longest code is that large, which makes the tables single level. |
| HuftBuild.OpenTable | src/script/gzip.js:586-633 | Making and linking in a table keeps the builder's invariant: what is below the current code decodes rightly in every table that it passes. |
| HuftBuild.MakeEntry | src/script/gzip.js:635-645 | The entry of the next code: that of the next symbol in code order, or an invalid one when there is none left. |
| HuftBuild.PlaceCode | src/script/gzip.js:647-665 | Filling in an entry, counting up and backing up over finished tables keeps the invariant for the next code. |
| HuftBuild.Backup | src/script/gzip.js:661-665 | The back-up loop ends at the table that the next code belongs to, and leaves only finished tables. |
| HuftBuild.DummyCodes | src/script/gzip.js:541-553 | How many codes of the greatest length fill out the set; negative exactly if there are too many codes. |
| HuftBuild.Generate | src/script/gzip.js:572-667 | After the last code the tables decode every bit string as the lengths say. |
| HuftBuild.Build | src/script/gzip.js:454-674 | Status 2 exactly for too many codes, 1 exactly for incomplete lengths whose greatest is above 1; the linked tables then decode every stream: walking them gives the entry of the symbol whose code the stream begins with, after as many bits as its code has. |
| HuftInvariant.OpenInv | src/script/gzip.js:607-633 | Linking in a new blank table keeps the invariant on links, on the stack of tables and on entries. |
| HuftInvariant.PlaceInv | src/script/gzip.js:647-654 | Placing a code's entry in the table on top of the stack makes the invariant hold for the next code. |
| HuftInvariant.LeftBehind | src/script/gzip.js:661-665 | A table whose prefix the next code has left is finished: no later code belongs to it. |
| HuftInvariant.WalkFinds | src/script/gzip.js:714-727 | Walking linked tables from any of them finds the right entry once all codes have been placed. |
| BitReader.TakeByte | src/script/gzip.js:680-691 | Or-ing in a byte keeps the stream of the buffer and the unread bytes, within 0 <= buffer < 2^length and length <= 23. |
| BitReader.TakeEnd | src/script/gzip.js:680-691 | Past the end of the data the stream goes on with ones. |
| BitReader.Peeking | src/script/gzip.js:693-695 | The masked buffer is the next bits of the stream. |
| BitReader.Dropping | src/script/gzip.js:697-700 | The shifted buffer stands for the rest of the stream. |
| Window.RingPut | src/script/gzip.js:730-731 | Writing a byte at the masked position keeps the window equal to the last 32768 bytes of the whole output. |
| Window.RingBack | src/script/gzip.js:768-774 | The masked cell that a copy reads holds the byte put out `distance` bytes ago, for distances up to 32768 and for positions that were negative before masking. |
| Deflate.SilentShrinks | src/script/gzip.js:1009-1093 | A step of the machine that puts nothing out gets nearer to the end: decoding makes progress. |
| Deflate.OrderIs | src/script/gzip.js:436-437 | The table of the order of the code length code lengths is that order by arithmetic. |
| Deflate.AllFieldsRead | src/script/gzip.js:905-909 | In the machine symbol k has the three bits of field k - 16, 3, 4 + 2(k - 8) or 3 + 2(8 - k), if it is there, and else zero. |
| Deflate.LengthTables | src/script/gzip.js:421-427 | The tables of lengths by arithmetic: eight single lengths, four ranges each of 2, 4, 8, 16 and 32, and 258. |
| Deflate.DistanceTables | src/script/gzip.js:428-435 | The tables of distances by arithmetic: four single distances, and two ranges each of 2, 4, 8 and so on up to 8192. |
| Runs.RunSplit | src/script/gzip.js:1009-1093 | Making a bytes and then b more is making a + b bytes, also where the machine halts on the way. |
| Runs.BuffersDoNotMatter | src/script/gzip.js:1009-1093 | The output does not depend on the sizes of the buffers, only on their sum. |
| Inflate.Inflater.NeedBits | src/script/gzip.js:686-691 | At least n bits are in the buffer afterwards and the stream is the same. |
| Inflate.Inflater.DumpBits | src/script/gzip.js:697-700 | The stream without its next n bits. |
| Inflate.Inflater.DecodeSymbol | src/script/gzip.js:714-727 | The loop through the tables takes exactly the code of the symbol that the stream begins with, or reports that there is none. |
| Inflate.Inflater.CopyByte | src/script/gzip.js:768-774 | One byte of a copy is the machine's step on the unbounded history. |
| Inflate.Inflater.CopyPending | src/script/gzip.js:1018-1027 | A copy goes on until it is done or the buffer is full, and neither loses nor repeats a byte. |
| Inflate.Inflater.DecodeDistance | src/script/gzip.js:748-765 | The distance code and its extra bits are those of the machine. |
| Inflate.Inflater.CodesTurn | src/script/gzip.js:714-778 | One turn of the loop: a literal, the end of the block, or a copy as far as there is room. |
| Inflate.Inflater.InflateCodes | src/script/gzip.js:702-782 | A block of codes: what the machine puts out, up to the size of the buffer, or its failure. |
| Inflate.Inflater.StoredLength | src/script/gzip.js:788-799 | Alignment, length and complement of a stored block, accepted exactly if the machine accepts them. |
| Inflate.Inflater.StoredLoop | src/script/gzip.js:804-812 | Stored bytes until the block ends or the buffer is full; also after a suspension (lines 1028-1035). |
| Inflate.Inflater.InflateStored | src/script/gzip.js:784-817 | A stored block: the bytes that the machine puts out, or its failure. |
| Inflate.Inflater.MakeFixed | src/script/gzip.js:824-863 | The tables made once decode the fixed codes. |
| Inflate.Inflater.InflateFixed | src/script/gzip.js:819-870 | A block with fixed codes puts out what the machine puts out. |
| Inflate.Inflater.ReadCodeLengths | src/script/gzip.js:905-914 | The length of code length symbol k is the three bits of its field, and zero if that is not among the nb that are there: the fields are those of 16, 17, 18, 0 and then of the symbols outwards from 8, by arithmetic and not by the table of the program. |
| Inflate.Inflater.ReadRun | src/script/gzip.js:924-957 | One length symbol or repeat, by a single lookup; a repeat that goes too far is refused, and nothing beyond it is written. |
| Inflate.Inflater.ReadAllLengths | src/script/gzip.js:920-958 | All code lengths as the format says, or a failure; no place from nl + nd on is written. |
| Inflate.Inflater.BuildTables | src/script/gzip.js:960-990 | The tables are accepted exactly for usable lengths and decode them. |
| Inflate.Inflater.InflateDynamic | src/script/gzip.js:872-993 | A block with codes of its own puts out what the machine puts out, or fails or throws where the machine does. |
| Inflate.Inflater.Start | src/script/gzip.js:995-1007 | The state before any block, at the given byte; the window keeps its contents. |
| Inflate.Inflater.Resume | src/script/gzip.js:1018-1038 | What a copy or a stored block left over from the last buffer goes on with. |
| Inflate.Inflater.ReadHeader | src/script/gzip.js:1040-1055 | The three header bits of a block. |
| Inflate.Inflater.InflateInternal | src/script/gzip.js:1009-1093 | The next bytes of the stream, exactly those of the machine with unbounded history, in the buffer and nowhere else; the state after it is the machine's; failures and exceptions are the machine's, and a bad block returns 0 if and only if it is the last one. |
| Lz77.CopyOutPeriodic | src/script/gzip.js:767-774 | A copy that overlaps itself repeats its first `distance` bytes. |
| Lz77.ExpandAfter | src/script/gzip.js:767-774 | What is put out does not depend on what was in the window before, if no copy reaches back before the start. |
| FixedCodes.FixedCodeIs | src/script/gzip.js:830-842 | The lengths 8, 9, 7, 8 give the literal/length codes listed in section 3.2.6 of RFC 1951. |
| FixedCodes.FixedDistanceCodeIs | src/script/gzip.js:850-855 | The thirty distance codes of five bits are the numbers from 0 to 29. |
| FixedCodes.FixedKraft | src/script/gzip.js:830-860 | The fixed literal/length code is complete and that for distances is not oversubscribed. |
| Encoding.SymbolRead | src/script/gzip.js:714-727 | A stream that begins with the code of a symbol decodes to that symbol, for every set of lengths that is not oversubscribed. |
| Encoding.TokensReach | src/script/gzip.js:702-782 | Reading the bits of literals and copies, written with any codes, puts out what they stand for and ends the block. |
| RunLengths.LengthsRoundTrip | src/script/gzip.js:920-958 | Code lengths written with any mix of single lengths and repeats (section 3.2.7 of RFC 1951) are read back exactly. |
| RunLengths.OverlongRefused | src/script/gzip.js:920-958 | A repeat that goes past the number of lengths is refused. |
| RunLengths.OneByOneLengths | src/script/gzip.js:920-958 | Every vector of lengths can be written. |
| Blocks.PlainReaches | src/script/gzip.js:784-817 | A stored block with any padding puts out its bytes. |
| Blocks.BookRead | src/script/gzip.js:888-990 | The codes of a dynamic block, however they were written (the order of the code length code lengths by arithmetic), are read back, and accepted if and only if they can be used and there are no more than 257 literal/length codes where no distance has one. |
| Blocks.DeflateRoundTrip | src/script/gzip.js:1009-1093 | Any sequence of stored, fixed and dynamic blocks, written as a stream, is decoded to exactly the bytes that the blocks stand for. |
| Blocks.FixedBlockRoundTrip | src/script/gzip.js:819-870 | For all literals and copies in reach, the fixed-code encoding decodes to their LZ77 expansion, overlapping copies included. |
| Refusals.LoneCode | src/script/gzip.js:924-930 | Usable code length codes that are not complete have a single symbol, and the table gives it for the bit 1 too, which is the code of none. |
| Refusals.AllMeanSomething | src/script/gzip.js:912-930 | Every bit string begins with the code of a code length if and only if the lengths are complete. |
| Refusals.RefusedBook | src/script/gzip.js:975-978 | A book of 258 literal/length codes and no distance code that section 3.2.7 of RFC 1951 allows and the program refuses. |
| Refusals.BadBlocks | src/script/gzip.js:1085-1089 | A bad last block, for which 0 is returned, and a bad block that is not the last one, for which -1 is. |
| Crc32.TimesNLinear | src/script/gzip.js:342-347 | Division by the polynomial is linear, which the table rests on. |
| Crc32.TakeByte | src/script/gzip.js:352-354 | One table lookup does what dividing eight bits one by one does. |
| Crc32.BasisEntries | src/script/gzip.js:342 | The entries of the eight bits are those of the program: 77073096, EE0E612C, 076DC419, 0EDB8832, 1DB71064, 3B6E20C8, 76DC4190 and EDB88320. |
| Crc32.EntryIsSum | src/script/gzip.js:342 | They fix all 256: the entry of a byte is the sum, under xor, of those of its bits. |
| Crc32.CheckValue | src/script/gzip.js:348-357 | The CRC of the characters 1 to 9 is CBF43926. |
| Crc32.Crc32 | src/script/gzip.js:348-357 | The table-driven CRC of a stretch of a string is the bit-by-bit polynomial division of section 8 of RFC 1952. |
| Crc32.CrcChain | src/script/gzip.js:1119 | Going on from the CRC of one string with the next gives the CRC of both joined. |
| Crc32.BurstDetected | src/script/gzip.js:348-357 | Messages that differ in a stretch of 32 bits at most have different CRCs. |
| GzipFile.CString | src/script/gzip.js:177-186 | The string up to the first zero byte; without one it throws, unless it starts past the end. |
| GzipFile.ParseHeader | src/script/gzip.js:252-293 | The fields of the header, the errors, and the place where the data begins. |
| GzipFile.HeaderRoundTrip | src/script/gzip.js:252-293 | Every header that section 2.3 of RFC 1952 allows, with any optional parts, is parsed back to what was written. |
| GzipFile.NotGzipExactly | src/script/gzip.js:258-260 | A file is refused as no gzip file if and only if it does not begin with 1f, 8b and 8. |
| GzipFile.WrongHeaderCrc | src/script/gzip.js:281-287 | A header with a CRC is refused if and only if the CRC is not its own. |
| GzipFile.NameCutOff | src/script/gzip.js:177-186 | A file that ends within its name is refused for want of a zero byte. |
| Gunzip.Member.constructor | src/script/gzip.js:1096-1101 | A new output: nothing in it, CRC 0, inflating about to start. |
| Gunzip.Member.NextBuffer | src/script/gzip.js:1110-1119 | One buffer more: output, size and CRC stay in step with the machine; which of 0 and -1 a bad block gives. |
| Gunzip.Member.ContinueInflate | src/script/gzip.js:1102-1130 | Buffer after buffer, with any stops on the way, the strings are the beginning of the output; at the end all of it, or for a bad stream all but less than one buffer. |
| Gunzip.Member.InflateAll | src/script/gzip.js:1096-1130 | Output, size and CRC do not depend on how the data arrives. |
| Gzip.Load | src/script/gzip.js:205-224 | Loading a file: header, output and the checks of the trailer, or the error. |
| Gzip.TrailerChecked | src/script/gzip.js:305-313 | A right trailer passes the check of the CRC, and that of the length exactly if `SizeOk` holds. |
| Gzip.AnyTrailer | src/script/gzip.js:305-313 | What any trailer is refused for: another CRC than that of the output, unless the latter is zero; a length that is not that of the output modulo 2^32 - 1, or is 2^31 or more. |
| Gzip.DamageFound | src/script/gzip.js:305-313 | An output that differs from what was written within 32 bits is reported, unless its CRC is zero. |
| Gzip.ZeroCrcUnchecked | src/script/gzip.js:307 | Four bytes whose CRC is zero pass whatever CRC the trailer gives. |
| Gzip.SizeChecked | src/script/gzip.js:309-311 | The exact lengths for which the check of a right length succeeds. |
| Gzip.SizeLimit | src/script/gzip.js:309-311 | Among the lengths that JavaScript counts exactly these are the ones below 2^31. |
| Gzip.LongFileRefused | src/script/gzip.js:309-311 | A right length of 2^31 is refused. |
| Gzip.GzipRoundTrip | src/script/gzip.js:205-224 | A file written as RFC 1951 and RFC 1952 say, with any header and any blocks, decodes to what was written, and passes the checks if and only if its length passes. |
| Gzip.WrittenLoads | src/script/gzip.js:205-224 | Loading such a file ends and gives what was written. |
| Chunks.ChunkSubstring | src/script/gzip.js:112-129 | Cutting out of an array of strings is cutting out of the strings joined, for all bounds. |
| Tar.TarGZ.ProcessTarChunks | src/script/gzip.js:62-88 | The files and the place to go on from are those of one pass over the joined text. |
| Tar.TarGZ.ParseTar | src/script/gzip.js:58-61 | The files of a text are those of one pass over it. |
| Archives.HeaderBack | src/script/gzip.js:89-102 | Every header that was written, with any strings that fit their fields and any length below 8^11, is parsed back, field by field. |
| Archives.NumberBack | src/script/gzip.js:103-109 | A number in octal digits, with anything but digits around it, is read back. |
| Archives.NumberStops | src/script/gzip.js:103-109 | An 8 or a 9 ends a number, and there is none without an octal digit before it. |
| Archives.ArchiveRoundTrip | src/script/gzip.js:58-110 | For all lists of files: reading the archive that was written finds their headers, lengths, offsets and contents, in order, up to the first file with neither name nor content. |
| Archives.EntriesAre | src/script/gzip.js:76-85 | All files are found if and only if each has a name or a content. |
| Archives.ArchiveInPieces | src/script/gzip.js:31-88 | In whatever growing pieces such an archive arrives all its files are found. |
| Archives.NeverPassed | src/script/gzip.js:64-75 | A file whose length is no number is never passed, however much arrives. |
| Tar.GrowingPieces | src/script/gzip.js:62-88 | However the archive grows, the passes find the files of one pass over the whole, if nothing after the first empty header reads as a file. |
| Tar.NotQuiet | src/script/gzip.js:62-88 | And only then: otherwise two passes find other files. |
| Tar.FileAfterEnd | src/script/gzip.js:62-88 | An archive in which one pass finds no file and two passes do. |
| Tar.ZerosQuiet | src/script/gzip.js:62-88 | An archive that is all zero after its first empty header meets the condition. |
| Cmscp.Wrapper.CleanStageoutArea | scripts/cmscp.py:565-686 | Afterwards no request is to be injected, or no file is left in the remote storage; an exception of the local manager goes through, exactly if it has files to remove. |
| Cmscp.Wrapper.StageLogs | scripts/cmscp.py:1308-1366 | Stageout of the logs, exactly under its condition, and what it puts on record. |
| Cmscp.Wrapper.StageFiles | scripts/cmscp.py:1395-1448 | The loop over the outputs ends at the first failure; without one, all outputs with a destination are on record, once and in order. |
| Cmscp.Wrapper.StageOutputs | scripts/cmscp.py:1367-1458 | Stageout of the outputs, exactly under its condition. |
| Cmscp.Wrapper.Attempt | scripts/cmscp.py:1306-1458 | Logs and outputs under one policy: not due, all staged out and on record once and in order, or a failure of the outputs; an exception exactly where no output has a destination. |
| Cmscp.Wrapper.CleanAfter | scripts/cmscp.py:1459-1488 | After a failure and its cleaning nothing of the policy is requested or left, and neither logs nor outputs count as staged out. |
| Cmscp.Wrapper.Turn | scripts/cmscp.py:1306-1493 | After each policy logs and outputs share their fate, and requests and remote files are those of the policy that succeeded, if any; when the turn ends the loop, and exactly when it ends in an exception. |
| Cmscp.Wrapper.Checks | scripts/cmscp.py:947-1206 | The checks of report, outputs and archive; the exit code is that of the first failure; exactly when an exception ends them. |
| Cmscp.Wrapper.Initialise | scripts/cmscp.py:1209-1293 | Both initialisations, and the exit code after the forced one. |
| Cmscp.Wrapper.Stageout | scripts/cmscp.py:1297-1493 | The outputs are staged out under the first policy under which everything goes well, and under no other; the loop ends in an exception exactly if the turn of a policy that it reaches does. |
| Cmscp.Wrapper.Verdict | scripts/cmscp.py:1494-1507 | After the loop the exit code, with the first failure of a missing stageout, is zero if and only if all went well and no failure of the archive is on record. |
| Cmscp.Wrapper.Run | scripts/cmscp.py:692-1512 | For every job ad and all answers of the world: exactly when the run ends early and exactly when with an exception; else, at its end, requests to ASO and remote files are exactly those of the winning policy, and the exit code is 0 if and only if there is one and no failure of the archive is left on record. The order in which policies are tried, spelled out case by case: the remote one alone without a protocol in common (then nothing is requested), remote before local instead of local before remote where the job runs at its destination, and else that of the job ad; staged out is under the first of them that can be tried and works, without one nowhere; and then the exit code is that of the first transfer that failed under the first policy that could be tried, if nothing had failed before. |
| Cmscp.ForgottenArchive | scripts/cmscp.py:1288-1291 | A run that ends with the exit code 0 and whose archive of the logs has failed. |
| Cmscp.LogsWithoutOutputs | scripts/cmscp.py:844-871 | A run that ends with the exit code 0 and does not stage out the logs that are wanted and archived. |
| JobLog.AfterEventSound | scripts/task_process/cache_status.py:105-193 | Every event about a submitted job keeps its histories even and its last entries there, and restarts in step with their length. |
| JobLog.AfterEventSame | scripts/task_process/cache_status.py:105-193 | What an event makes of a job, but for its sites and wall-clock times, does not depend on these two histories. |
| JobLog.Pad | scripts/task_process/cache_status.py:201-215 | The padding leaves both histories equally long. |
| JobLog.StatusCache.ParseJobLog | scripts/task_process/cache_status.py:77-215 | The whole call: all events and the padding, or the exception for a job that was never submitted. |
| JobLives.RunsThrough | scripts/task_process/cache_status.py:49-215 | The whole record of a job that runs through, for all times, sites, sizes, CPU times and answers of the post-script: its site, its times, the wall-clock time from start to end, user and system CPU time, and finished for 0, failed for 2, and else cooloff. |
| JobLives.StopsAndStarts | scripts/task_process/cache_status.py:139-191 | That of a job that is evicted, starts again, is held, released and aborted: one entry for each time in the queue, a wall-clock time for each run. |
| JobLives.EvictedTwice | scripts/task_process/cache_status.py:139-161 | Out of the queue neither another eviction nor another site is noted; a running job that is aborted keeps its start. |
| JobLives.StartsTwice | scripts/task_process/cache_status.py:105-215 | That of a job with two starts and no eviction in the log: the missing wall-clock time is filled in from the last start. |
| JobLives.SubmittedAgain | scripts/task_process/cache_status.py:89-138 | That of a job without a start in the log that fails and is submitted again. |
| JobLog.CheckpointsDoNotMatter | scripts/task_process/cache_status.py:77-215 | However the log is cut, state, job ids, all times, retries, restarts, sizes, CPU times and the map of jobs come out as from one call. |
| JobLog.FollowsSafe | scripts/task_process/cache_status.py:105-193 | No event throws if and only if every event about a job follows its submission. |
| JobLog.HistoryLengths | scripts/task_process/cache_status.py:93-104 | The five even histories grow by one for each submission and each restart. |
| JobLog.HistoriesFromTheStart | scripts/task_process/cache_status.py:93-175 | Over any number of calls they have one entry for each submission and restart, and at least one for a submitted job, so that the last entry is always there. |
| JobLog.PaddedAlike | scripts/task_process/cache_status.py:205-215 | Each call ends with as many wall-clock times as sites. |
| JobLog.SitesDependOnCheckpoints | scripts/task_process/cache_status.py:205-215 | The history of sites does depend on the checkpoints. |
| Checkpoints.AddsIs | scripts/task_process/cache_status.py:86-193 | What a stretch of the log does to the histories of sites and wall-clock times: sites appended, one time overwritten, times appended. |
| Checkpoints.AddsSame | scripts/task_process/cache_status.py:86-193 | What it adds does not depend on these two histories. |
| Checkpoints.SitesKeptExactly | scripts/task_process/cache_status.py:201-215 | The sites come out of two calls as out of one if and only if a condition on the lengths before and after the cut, and on the sites after it, holds. |
| Checkpoints.TimesKeptExactly | scripts/task_process/cache_status.py:201-215 | The same for the wall-clock times. |
| Checkpoints.CalmKeeps | scripts/task_process/cache_status.py:273-299 | The node state file leaves it as it is whether a job is idle, running or held exactly if it does not give such a job a state of its own. |
| Checkpoints.ShowsExactly | scripts/task_process/cache_status.py:105-193 | Two records of a job with the same histories and perhaps different states: after more events the histories are the same if and only if the first event that looks at the state or sets it does not count differently. |
| Checkpoints.RefreshExactly | scripts/task_process/cache_status.py:319-354 | One checkpoint with any node state file: all histories come out as from the whole log if and only if the overwritten state does not show in the events after it. |
| Checkpoints.RefreshesExactly | scripts/task_process/cache_status.py:319-354 | Any number of runs: the histories of a job agree with those of the whole log after every run if and only if no overwritten state shows. |
| Checkpoints.RefreshesDoNotMatter | scripts/task_process/cache_status.py:319-354 | A sufficient condition for all jobs at once and any number of runs: no file takes a job out of being idle, running or held. |
| Checkpoints.HistoriesAfterRefreshes | scripts/task_process/cache_status.py:319-354 | The same condition from the first run on, for every node. |
| Checkpoints.OverlaysMatter | scripts/task_process/cache_status.py:273-277 | An overwritten state that shows: one eviction counts as a restart. |
| JobLog.OverlayTwice | scripts/task_process/cache_status.py:233-299 | Overlaying the same node states twice is overlaying them once. |
| JobLog.RefreshTwice | scripts/task_process/cache_status.py:342-354 | A run without new events and with the same node states changes nothing. |
| JobLives.StatesOfFile | scripts/task_process/cache_status.py:273-299 | After a run each node that the node state file names has the state that the file gives over that of the log, case by case, and every other node is as in the log. |
| FtsSubmit.ChunksJoin | scripts/task_process/FTS_Transfers.py:50-58 | The chunks joined are the list. |
| FtsSubmit.Submission.SubmitChunks | scripts/task_process/FTS_Transfers.py:439-445 | The jobs of one source are its chunks, each with its id, its update and its file of ids, which say the same. |
| FtsSubmit.Submission.Submit | scripts/task_process/FTS_Transfers.py:340-451 | Jobs and lists of failed ids, source by source in any order, all recorded and all updates sent. |
| FtsSubmit.EveryRequestEnds | scripts/task_process/FTS_Transfers.py:392-445 | Every request ends in exactly one job or exactly one list of failed ids. |
| FtsSubmit.JobsAreWf | scripts/task_process/FTS_Transfers.py:439-440 | Jobs are of one source, not empty and not above the limit. |
| FtsSubmit.OrderKept | scripts/task_process/FTS_Transfers.py:392-445 | In the jobs the requests of a source are in the order of the input. |
| FtsPoll.Monitor.ReadFiles | scripts/task_process/FTS_Transfers.py:186-228 | An id is reported as done exactly if it is on the local list and FTS lists a file with it as transferred, in a job that is active or has ended; as failed exactly if failed or canceled, or, in a job that has ended, in no final state; and those in a final state are to be taken off the list. |
| FtsPoll.Monitor.CheckFtsJob | scripts/task_process/FTS_Transfers.py:133-241 | One poll of one job: reports, the local list, and the lists of ongoing and ended jobs; an exception exactly if FTS does not list the files. |
| FtsPoll.Monitor.StateManager | scripts/task_process/FTS_Transfers.py:500-559 | A job leaves the list exactly if FTS does not know it, or it is finished, finished dirty, failed or canceled and the updates for the files that are transferred, and for those that are not, if there are any, are accepted, no reason being missing for the latter; what is handed over for each job is what there is to report; if FTS throws, the local lists of the jobs before are written and nothing is sent. |
| FtsPoll.ReportsAre | scripts/task_process/FTS_Transfers.py:171-226 | What is done, failed and reported as failed, in terms of the states of jobs and files that FTS gives. |
| FtsPoll.LeavesIs | scripts/task_process/FTS_Transfers.py:531-546 | When a job leaves the list, in the same terms. |
| FtsPoll.IdsAreConserved | scripts/task_process/FTS_Transfers.py:186-241 | Over any polls the submitted ids are the disjoint union of those left, those reported as done and those reported as failed from a final state. |
| FtsPoll.RunsArePolls | scripts/task_process/FTS_Transfers.py:500-559 | For each job any runs are a row of polls, as long as it is on the list. |
| FtsPoll.RunsConserve | scripts/task_process/FTS_Transfers.py:500-559 | So over any runs in which FTS does not throw no id is lost, doubled, or reported twice from a final state. |
| FtsPoll.ReportedAgain | scripts/task_process/FTS_Transfers.py:186-241 | After any polls an id is reported exactly if no poll has listed it in a final state and it is mentioned now. |
| FtsPoll.ReportedTwice | scripts/task_process/FTS_Transfers.py:186-241 | What one poll has reported the next one reports again exactly if it was stuck and is mentioned. |
| FtsPoll.NothingLeft | scripts/task_process/FTS_Transfers.py:186-241 | Once nothing is left of an ended job nothing is reported, and it leaves the list even if the updates had failed. |
| FtsPoll.NeverLeaves | scripts/task_process/FTS_Transfers.py:93-107 | As long as a file of an ended job is stuck without a reason, the job stays on the list, in any runs and whatever the server says. |
| FtsPoll.RefusedUpdate | scripts/task_process/FTS_Transfers.py:531-546 | Two runs: the update of a finished file is refused, and the job is dropped without its being sent again. |
| FtsPoll.LostExactly | scripts/task_process/FTS_Transfers.py:174-241 | A run in which FTS throws loses an id exactly if its job was looked at before and the file listed in a final state. |
| FtsPoll.LostReport | scripts/task_process/FTS_Transfers.py:174-241 | Such a run. |
| AdjustSites.AdjustPostScriptExitStatus | scripts/AdjustSites.py:36-139 | The loop with its look-behind buffer does what a rewriting with four lines in view does. |
| AdjustSites.FirstSequence | scripts/AdjustSites.py:63-122 | A sequence at the start of a log: its return value becomes 1 exactly if it is 2 and all failed jobs are to run again, or if it is 0 or 2 and its job is listed; the rest is rewritten by itself. |
| AdjustSites.OnlySelectedChange | scripts/AdjustSites.py:77-122 | Number and order of lines are kept, and only return values in sequences of selected jobs are changed, but for one at the very end. |
| AdjustSites.IdsAreChanged | scripts/AdjustSites.py:77-139 | The ids returned are those of the changed return values, in their order. |
| AdjustSites.SelectedAreFound | scripts/AdjustSites.py:77-122 | Every sequence of a selected job that follows a line of an event is changed and reported. |
| AdjustSites.SecondRun | scripts/AdjustSites.py:77-139 | A second run with the same jobs changes nothing and returns no id. |
| AdjustSites.CutOffRewritten | scripts/AdjustSites.py:65-122 | If there are jobs, a last return value is changed without a report exactly if the log ends before its node. |
| AdjustSites.CrashExactly | scripts/AdjustSites.py:65-107 | The program throws exactly if there are jobs and a sequence that it comes upon has no node after its return value. |
| AdjustSites.NoNode | scripts/AdjustSites.py:104-107 | A log that makes the rewriting throw. |
| AdjustSites.CompleteLogs | scripts/AdjustSites.py:77-139 | For every complete log, all at once: no exception, the same lines but for return values in sequences of selected jobs, the ids of these in order, and nothing to do for a second run. |
| BadFiles.Totals.Accumulate | scripts/Utils/ProcessBadFilesList.py:157-186 | One report more: counted for its file, or a new total at the end. |
| BadFiles.Totals.AccumulateAll | scripts/Utils/ProcessBadFilesList.py:157-186 | Counting reports one by one gives the summary of all of them: files in the order of their first report, with the number of reports, the sites and the kinds of each. |
| BadFiles.SummaryIs | scripts/Utils/ProcessBadFilesList.py:157-186 | A summary has each file that is reported, in the order of the first reports, with the number of its reports and exactly the sites and kinds that they name. |
| BadFiles.AddTotals | scripts/Utils/ProcessBadFilesList.py:226-254 | Totals of files in both lists are combined, the others are kept, in order. |
| BadFiles.MergeIsCount | scripts/Utils/ProcessBadFilesList.py:226-254 | Merging the totals of two lists of reports is counting both lists at once. |
| BadFiles.DaysAreCounted | scripts/Utils/ProcessBadFilesList.py:111-121 | So is merging any number of days. |
| BadFiles.ErrorsAddUp | scripts/Utils/ProcessBadFilesList.py:167-186 | The errors add up to the number of reports, and no file is listed twice. |

## Left out

- HuftBuild.Build: the table entries are values in a list of tables, and a link is a place in that list; that the entries are shared objects is not modelled.
- Inflate.Inflater.InflateInternal: what a call that fails has already written into its buffer is not described, because the program discards its count; cells of the window that were never written are bytes here, where the program has undefined values.
- Inflate.Inflater.NeedBits: the whole compressed input is there; the guess that 64 spare bytes are enough for one buffer while data is still arriving is not modelled.
- Gunzip.Member.ContinueInflate: a stream on which decoding never ends (past its end a stream goes on with ones) is excluded, and so is a call after one that a bad stream has ended, though loading a file may make one; `arrived` only decides where a call stops.
- Crc32.Crc32: the 256 constants are defined by eight steps of division each, and proved to be the sums of the eight for single bits, which are those of the program; the other 248 literals are not spelled out.
- Tar.TarGZ.ProcessTarChunks: the callbacks for finished files and the data URLs are not modelled.
- Cmscp.Wrapper.Run: policies are all different, failure codes are not zero, and a job ad is there; messages, signals, file names with directories and the contents of the job report are left out, and so is a report that can be read at first and not later.
- Cmscp.Wrapper.CleanStageoutArea: whether the local manager raises an exception when it cleans is an answer of the world; a file whose transfer runs into the timeout counts as not in its storage.
- JobLog.StatusCache.ParseJobLog: events come classified; a node's record is a value in a map and not a shared dictionary; the record of the DAG itself and sub-DAGs are left out.
- FtsPoll.Monitor.CheckFtsJob: the local list keeps its order, where the program makes a set of it, and is there for every job; FTS lists each id once for the theorems on conservation; removal of source files is left out.
- FtsSubmit.Submission.Submit: the services do not raise exceptions but where paths are mapped; the paths themselves are passed on as they are.
- AdjustSites.AdjustPostScriptExitStatus: lines come classified, each with one class at most; writing the file twice is left out, and so is the adjustment of the maximum number of retries, which is a single rewriting of numbers.
- BadFiles.AddTotals: records are values; that a merged list shares records with its arguments is not modelled, nor are JSON files and parsing.
- The summary of the report parser (`summarizeFjrParseResults`) and `parseErrorReport` copy data without conditions worth a proof.
- HTTP, Rucio, WMCore, HTCondor, ClassAds, regular expressions and clocks are parameters or absent.
