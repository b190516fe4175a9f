# HLS downloader core, modelled in Dafny

The repository is an HLS video downloader with two backends and a web front end.

- **Django/Celery backend.**
  - `M3U8Parser` reads a master or media playlist into a variant choice, an ordered segment list and an `EXT-X-KEY` descriptor.
  - `SegmentDownloader` fetches one segment with retries and decrypts it with the key and IV.
  - `VideoMerger` joins the segment files, with ffmpeg or by plain concatenation.
  - The Celery tasks in `downloader/tasks.py` drive a task through pending, downloading, merging and completed (or failed) over task and segment records.
  - The REST views pause, resume, cancel and retry tasks; the serializers guard status changes and request bodies.
  - The `files` app serves, deletes, moves and renames downloaded files and reports statistics about them.
- **Node/Express backend.**
  - Its own `M3U8Parser` and `AESDecryptor`.
  - A `DownloadTask` class holding a task's state.
  - The download controller: it slices a segment range, drains a queue of segments through workers, and merges.
  - An in-memory task history with listing, deletion, clearing, statistics and CSV export.
- **Front end.** Display helpers: file extensions, status labels and tag colours, URL guards, titles from URLs and time formatting.

One Dafny module stands for each source file. The modules are below.

- **Pure code.** Parsers, validators, formatters and status tables are datatypes and functions. Lemmas state what the source promises about them.
- **Changing state.** The Node `DownloadTask`, the Node controller, the task history, the Django database and the files table are classes. Their methods change fields through `modifies` clauses. Each method is proved equal to a specification function, and the lemmas are about that function.
- **The file system.** It is the class `Files.Disk`, a map from paths to bytes.
- **Celery.** `.delay(...)` appends a job to a queue.
- **The ORM.** It is a sequence of rows.
- **Outside inputs.** Network fetches, the block cipher, URL parsing and joining, clocks and ffmpeg runs are parameters or oracles given as inputs.

Helper modules:

| Module | Holds |
|---|---|
| `Wrappers` | `Option` and `Result` |
| `Seqs` | filters, counts, JavaScript `slice` |
| `Text` | Python and JavaScript white space, split and join, search, decimal digits, case mapping |
| `Bytes` | bytes, hex text as Python and Node decode it, big-endian integers |
| `Files` | the disk and `os.path` |
| `TimeFormat` | the three-band time text shared by `DownloadTask.js` and the front end |

Where the source and its description disagree, the model follows the code:

- A Django `CharField` trims surrounding white space by default, so an accepted file-action body carries the trimmed target and name rather than the body unchanged.
- The Node controller's range slice keeps each segment's parse-time index. The merge, however, asks for files by position. This is kept as written and reported under Findings.
- The ffmpeg list file is written with the POSIX-shell quote idiom, as `merger.py` does (`ListLine`). The escaping ffmpeg expects is modelled beside it (`CorrectedListLine`) and reported under Findings.
- `_move_file` calls `os.makedirs` on the target's directory even when it is empty, so a move to a bare file name fails. `file_action` and `bulk_action` use this move as written (`MoveAsWritten`); the move with the directory created only when there is one (`MoveSpec`) is its corrected half under Findings.
- `GET /list` reads its query parameters with JavaScript `parseInt`, so a parameter that is not a number gives `NaN` and an empty page, and `10x` reads as 10.

## Model

| member | source | states |
|---|---|---|
| PyM3U8Parser.GetBaseUrl | downloader/utils/m3u8_parser.py:59-62 | the base is scheme, `://`, netloc, the path up to (not including) its last `/`, then `/`; it always ends in `/` |
| PyM3U8Parser.FirstMatch | downloader/utils/m3u8_parser.py:163-164 | `re.search` for `ATTR=[^,\s]+`: the reported position matches and no position before it does |
| PyM3U8Parser.ValueRun | downloader/utils/m3u8_parser.py:163 | the captured group is the maximal run of characters other than comma and white space |
| PyM3U8Parser.UnquoteCases | downloader/utils/m3u8_parser.py:166-172 | a value that starts and ends with the same quote (`"` or `'`) loses both, a lone quote becomes empty, any other value is returned unchanged |
| PyM3U8Parser.ExtractAttributeAbsent | downloader/utils/m3u8_parser.py:161-173 | the attribute is `None` exactly when `ATTR=` followed by a value character occurs nowhere |
| PyM3U8Parser.ExtractAttributeAt | downloader/utils/m3u8_parser.py:161-173 | the leftmost match decides the value: the unquoted greedy run after it |
| PyM3U8Parser.SameValueStart | downloader/utils/m3u8_parser.py:161-173 | two attribute names whose first matches put the value at the same place read the same value |
| PyM3U8Parser.AverageBandwidthShadows | downloader/utils/m3u8_parser.py:161-173 | when `AVERAGE-BANDWIDTH=` is the first place `BANDWIDTH=` occurs, the BANDWIDTH lookup returns the average bandwidth's value |
| PyM3U8Parser.PyIntOfNatToString | downloader/utils/m3u8_parser.py:86 | `int()` reads back every non-negative decimal numeral as its value |
| PyM3U8Parser.BestIndex | downloader/utils/m3u8_parser.py:95-97 | Python `max` by bandwidth: the chosen stream's bandwidth is at least every other's and strictly above every earlier one's, so ties go to the first |
| PyM3U8Parser.ScanAtTag | downloader/utils/m3u8_parser.py:70-92 | at a STREAM-INF line with a next line, the scan yields that tag's stream (URI = the next line stripped and resolved) and resumes two lines on; an `int()` failure there is the scan's failure |
| PyM3U8Parser.ScanPastLine | downloader/utils/m3u8_parser.py:70-92 | any other line is skipped; a tag on the last line yields nothing |
| PyM3U8Parser.ScanFromAtTags | downloader/utils/m3u8_parser.py:69-92 | a successful scan holds exactly one stream per tag position, in order, each described by its tag and the line after it |
| PyM3U8Parser.ScanFromFails | downloader/utils/m3u8_parser.py:86 | the scan raises exactly when `int()` rejects the BANDWIDTH of some tag position |
| PyM3U8Parser.MissingBandwidthIsZero | downloader/utils/m3u8_parser.py:86 | a tag line without BANDWIDTH contributes a stream of bandwidth 0 |
| PyM3U8Parser.ParseMasterPlaylist | downloader/utils/m3u8_parser.py:64-99 | the loop returns `MasterChoice`: `None` for no streams, else the URL at `BestIndex`, or the `int()` error |
| PyM3U8Parser.ResolveAll | downloader/utils/m3u8_parser.py:114-115 | every line is stripped and, unless it starts with `http`, joined to the base |
| PyM3U8Parser.MediaSegmentsAreSegmentLines | downloader/utils/m3u8_parser.py:101-119 | the k-th segment is the k-th stripped line that is non-empty and not a comment, resolved; one segment per such line, in document order |
| PyM3U8Parser.ParseMediaPlaylist | downloader/utils/m3u8_parser.py:101-119 | the loop returns exactly `MediaSegments` of the stripped, split content |
| PyM3U8Parser.FirstKeyTag | downloader/utils/m3u8_parser.py:126 | `re.search('#EXT-X-KEY:(.+)')`: the reported position holds the tag followed by a non-newline character, and no earlier one does |
| PyM3U8Parser.LineRun | downloader/utils/m3u8_parser.py:126 | the `.+` group is the run of characters up to the next newline or the end |
| PyM3U8Parser.FirstKeyTagIs | downloader/utils/m3u8_parser.py:126 | the leftmost key tag is the one the search reports |
| PyM3U8Parser.FirstKeyLineDecides | downloader/utils/m3u8_parser.py:126-128 | only the first `#EXT-X-KEY:` line counts: text appended after it, more key lines included, leaves the attributes unchanged |
| PyM3U8Parser.KeyTagAtExtended | downloader/utils/m3u8_parser.py:126 | whether the tag occurs at a position is settled by the text up to one character past it |
| PyM3U8Parser.LineRunExtended | downloader/utils/m3u8_parser.py:126 | a key line ended by a newline keeps its length whatever follows |
| PyM3U8Parser.InfoFieldsWhenFound | downloader/utils/m3u8_parser.py:131-157 | `method` and `iv` are present exactly when their attribute has a non-empty value; `method` is the value as found |
| PyM3U8Parser.IvLosesHexPrefix | downloader/utils/m3u8_parser.py:152-157 | an IV given as `0x…` or `0X…` is stored without that prefix |
| PyM3U8Parser.StoredKeyIsFetchedKey | downloader/utils/m3u8_parser.py:136-149 | the key is present exactly when a non-empty URI was found and its fetch succeeded, and `bytes.fromhex` of the stored text is exactly the fetched bytes |
| PyM3U8Parser.FollowOrigin | downloader/utils/m3u8_parser.py:29-57 | every non-failure result of the fetch-and-redirect chain is the result of some fetched playlist's step |
| PyM3U8Parser.Parse | downloader/utils/m3u8_parser.py:18-57 | the method returns `ParseSpec`: the redirect chain with a bounded depth |
| PyM3U8Parser.ReadPlaylist | downloader/utils/m3u8_parser.py:36-53 | once a playlist is fetched: master playlists name the next URL or give `([], {})`, other playlists give their segments and key info |
| PyM3U8Parser.ParseOneLevel | downloader/utils/m3u8_parser.py:29-57 | no depth left or a failed fetch gives `([], {})`; content with `#EXT-X-STREAM-INF` anywhere goes on with the chosen non-empty stream, else gives `([], {})` (no stream, or `int()` raised); other content is read as a media playlist |
| PyM3U8Parser.DoneWithSegmentsIsMedia | downloader/utils/m3u8_parser.py:40-53 | a finished step with segments came from content without a STREAM-INF tag, read as a media playlist |
| PyM3U8Parser.ParseOrigin | downloader/utils/m3u8_parser.py:18-57 | a parse with segments is the media reading of one fetched playlist without a STREAM-INF tag; master playlists only redirect |
| NodeM3U8Parser.GetBaseUrlDropsLastComponent | backend-node/utils/m3u8Parser.js:112-119 | `getBaseUrl` is the origin followed by the path cut just before its last `/` (so no trailing slash); an unparsable URL throws |
| NodeM3U8Parser.DirPartThenRest | backend-node/utils/m3u8Parser.js:115 | the path is the kept part followed by `/` and a last component without `/`, or has no `/` at all |
| NodeM3U8Parser.BaseThenResolveRebuilds | backend-node/utils/m3u8Parser.js:112-139 | resolving a playlist's own last path component against its base URL gives back the playlist URL's origin and path |
| NodeM3U8Parser.AbsoluteIsKept | backend-node/utils/m3u8Parser.js:123-126 | `http://` and `https://` references are returned unchanged whatever the base |
| NodeM3U8Parser.Run | backend-node/utils/m3u8Parser.js:92-104 | the greedy character-class run of a regular expression: maximal |
| NodeM3U8Parser.FirstCapture | backend-node/utils/m3u8Parser.js:92-104 | `String.match` reports the leftmost match; no earlier position matches |
| NodeM3U8Parser.CaptureAbsent | backend-node/utils/m3u8Parser.js:92-107 | `match` gives null exactly when the pattern matches nowhere |
| NodeM3U8Parser.CaptureAtFirst | backend-node/utils/m3u8Parser.js:92-107 | the leftmost match decides the group: the non-empty greedy run after the literal |
| NodeM3U8Parser.CaptureFacts | backend-node/utils/m3u8Parser.js:92-107 | a group is missing exactly when nothing matches, and is otherwise a non-empty run of its class |
| NodeM3U8Parser.ClosedCaptureEndsAtQuote | backend-node/utils/m3u8Parser.js:98 | the `URI="([^"]+)"` group is followed by the closing `"` |
| NodeM3U8Parser.MethodAndUriFields | backend-node/utils/m3u8Parser.js:84-110 | `method` is the run after `METHOD=` up to a comma or white space, null only when none occurs; `uri` comes only from a double-quoted `URI="…"`; the descriptor throws exactly when that URI cannot be resolved |
| NodeM3U8Parser.IvNeedsLowerCasePrefix | backend-node/utils/m3u8Parser.js:103-107 | `iv` is set only for `IV=0x` (lower-case `x`) followed by hex digits, and is stored as those digits without the prefix |
| NodeM3U8Parser.ScanStaysFailed | backend-node/utils/m3u8Parser.js:38-70 | a throw on some line ends the whole parse with that error |
| NodeM3U8Parser.ScanNext | backend-node/utils/m3u8Parser.js:38-70 | the scan of one more line is one more loop iteration |
| NodeM3U8Parser.ScanNoMaster | backend-node/utils/m3u8Parser.js:42-44 | a successful scan has seen no line containing `#EXT-X-STREAM-INF` |
| NodeM3U8Parser.ScanEncryption | backend-node/utils/m3u8Parser.js:47-49 | the current descriptor is that of the most recent `#EXT-X-KEY:` line, null before the first |
| NodeM3U8Parser.KeyLineIsComment | backend-node/utils/m3u8Parser.js:47-60 | a key line starts with `#` and so is never a segment line |
| NodeM3U8Parser.SegmentFromPrefix | backend-node/utils/m3u8Parser.js:59-69 | a segment taken from a line of a prefix keeps its description when more lines follow |
| NodeM3U8Parser.ScanSegments | backend-node/utils/m3u8Parser.js:59-69 | the segments a successful scan collects are exactly the non-`#` lines, in order, each with the next index and the descriptor current at its line |
| NodeM3U8Parser.ParsedPlaylist | backend-node/utils/m3u8Parser.js:31-82 | a parsed playlist has at least one segment, one per non-`#` line, indices 0, 1, 2, …, URLs the resolved lines, each segment carrying the descriptor of the last key line before it, the top-level descriptor the last one seen, and no master tag anywhere |
| NodeM3U8Parser.NodeLinesArePieces | backend-node/utils/m3u8Parser.js:32 | the scanned lines are the trimmed non-empty pieces of the content split at `\n`, in order |
| NodeM3U8Parser.MasterIsRejected | backend-node/utils/m3u8Parser.js:42-44 | any line containing `#EXT-X-STREAM-INF` makes the parse throw |
| NodeM3U8Parser.ParseM3U8Content | backend-node/utils/m3u8Parser.js:31-82 | the loop returns `ContentSpec`: the scan's result, or the no-segments error when it found none |
| NodeM3U8Parser.Parse | backend-node/utils/m3u8Parser.js:11-29 | a failed fetch, an unparsable URL and every content error surface wrapped once as the parse failure; otherwise the content's playlist with the URL's base |
| NodeM3U8Parser.ValidateM3U8 | backend-node/utils/m3u8Parser.js:142-158 | true exactly when the first line, trimmed, starts with `#EXTM3U` and some line that is not a comment and not blank names `.ts`, `.m4s` or `.mp4` |
| NodeM3U8Parser.FirstResolution | backend-node/utils/m3u8Parser.js:177 | the reported `RESOLUTION=(\d+x\d+)` position matches |
| NodeM3U8Parser.FirstResolutionIsLeftmost | backend-node/utils/m3u8Parser.js:177 | no match starts before the reported one, and none at all when none is reported |
| NodeM3U8Parser.ResolutionShape | backend-node/utils/m3u8Parser.js:177-182 | a captured resolution is always `WxH`: digits, one `x`, digits |
| NodeM3U8Parser.WxHAt | backend-node/utils/m3u8Parser.js:177 | the text a match captures is `WxH` |
| NodeM3U8Parser.RunIsDigits | backend-node/utils/m3u8Parser.js:176-177 | a `\d+` run consists of digits |
| NodeM3U8Parser.VariantScanStaysFailed | backend-node/utils/m3u8Parser.js:171-191 | an unresolvable URL line ends the variant scan with that error |
| NodeM3U8Parser.VariantScanPending | backend-node/utils/m3u8Parser.js:174-190 | the attributes pending after a prefix are those of the last STREAM-INF tag no URL line has used since |
| NodeM3U8Parser.VariantTagIsComment | backend-node/utils/m3u8Parser.js:174-185 | a STREAM-INF tag is never a URL line |
| NodeM3U8Parser.EntryFromPrefix | backend-node/utils/m3u8Parser.js:185-190 | an entry taken from a line of a prefix keeps its description when more lines follow |
| NodeM3U8Parser.VariantScanEntries | backend-node/utils/m3u8Parser.js:166-194 | the entries are one per non-`#` line, in order, with the resolved URL and the attributes pending before that line (then reset) |
| NodeM3U8Parser.TagThenUrl | backend-node/utils/m3u8Parser.js:176-188 | a URL line right after a tag carries that tag's attributes, bandwidth 0 when BANDWIDTH is absent |
| NodeM3U8Parser.ParsePlaylist | backend-node/utils/m3u8Parser.js:166-194 | the loop returns exactly the variant scan's entries, or its error |
| AesDecryptor.FitIv | backend-node/utils/aesDecryptor.js:26-33 | the IV handed to the cipher is exactly 16 bytes: the buffer's own bytes first, zeros after a short one, a long one cut at 16 |
| AesDecryptor.NumericIv | backend-node/utils/aesDecryptor.js:15-18 | a segment index in 0..2^32-1 gives a 16-byte IV whose first 12 bytes are zero and whose last 4 read big-endian as the index |
| AesDecryptor.UnpaddedIsPrefix | backend-node/utils/aesDecryptor.js:64-85 | padding removal keeps a prefix of the data at most 16 bytes shorter, and keeps the data whole exactly when it does not end in `p` copies of a byte `p` in 1..16 |
| AesDecryptor.Pad | backend-node/utils/aesDecryptor.js:64-85 | the PKCS#7 padding the removal undoes fills the message past its length to a whole number of 16-byte blocks, adding 1 to 16 bytes |
| AesDecryptor.UnpadPad | backend-node/utils/aesDecryptor.js:64-85 | removing the padding of a padded message gives back the message |
| AesDecryptor.RemovePKCS7Padding | backend-node/utils/aesDecryptor.js:64-85 | the checking loop with its early returns computes the reference removal: the data kept as is when empty, when the last byte is 0 or above 16, or when a padding byte differs |
| AesDecryptor.Decrypt | backend-node/utils/aesDecryptor.js:8-61 | builds the IV by argument type, fits it to 16 bytes, decodes the key, refuses a key that is not 16 bytes, runs the cipher and removes the padding; every failure is rethrown wrapped |
| AesDecryptor.DecryptOutcome | backend-node/utils/aesDecryptor.js:8-61 | decryption succeeds exactly when the IV can be built, the key is 16 bytes and the cipher does not throw, and its plaintext is then the cipher output with at most one block cut off its end |
| AesDecryptor.ValidKeyHasDecryptLength | backend-node/utils/aesDecryptor.js:88-99 | a key the validator accepts, written without `0x`, passes decrypt's 16-byte length check |
| AesDecryptor.ValidIvIsNotTruncated | backend-node/utils/aesDecryptor.js:102-121 | a hex or Buffer IV the validator accepts is at most 16 bytes, so decrypt only pads it and its bytes reach the cipher intact |
| AesDecryptor.PrefixedKeyValidatesButFails | backend-node/utils/aesDecryptor.js:88-99 | the validator drops a leading `0x` and decrypt does not: a `0x`-prefixed hex key of 16 bytes validates, yet decrypt decodes it to 0 bytes |
| AesDecryptor.DetectIgnoresCase | backend-node/utils/aesDecryptor.js:137-153 | method detection upper-cases the name first, so a lower-cased name is detected just as the original |
| AesDecryptor.DetectedNames | backend-node/utils/aesDecryptor.js:137-153 | a detected cipher is `aes-128-cbc` or `aes-128-ctr`, and it is the CTR one exactly when the upper-cased name is `AES-128-CTR` |
| SegmentDownloader.SegmentFileNameDigits | downloader/utils/downloader.py:36 | a segment file is `segment_`, at least six digits that read back as the index, then `.ts` |
| SegmentDownloader.SegmentPathsDistinct | downloader/utils/downloader.py:36 | two different indices never share a segment file in the same directory |
| SegmentDownloader.UnpadAgreesWithNode | downloader/utils/downloader.py:101-106 | the unpad-or-keep fallback removes padding exactly as the Node decryptor does on whole blocks, and keeps any other data as it is |
| SegmentDownloader.UnpadOrKeepOfPad | downloader/utils/downloader.py:101-106 | a PKCS#7-padded message comes back out of the fallback unpadded |
| SegmentDownloader.BigEndianWiden | downloader/utils/downloader.py:95 | widening a big-endian encoding of a value that fits only adds leading zero bytes |
| SegmentDownloader.IndexIvMatchesNode | downloader/utils/downloader.py:95 | for an index below 2^32 the implicit 16-byte IV is the same one the Node decryptor builds from a numeric IV |
| SegmentDownloader.ImplicitIvIsIndex | downloader/utils/downloader.py:89-106 | without an explicit IV the cipher gets the index as 16 big-endian bytes, and the result is its output unpadded when it can be |
| SegmentDownloader.StoredKeyReachesCipher | downloader/utils/downloader.py:86-106 | a key stored as hex reaches the cipher byte for byte; the IV is the explicit one decoded or else the index; any step that raises gives no result |
| SegmentDownloader.DecryptSegment | downloader/utils/downloader.py:80-116 | succeeds exactly when the file exists and every step succeeds, and then only that file is replaced by the decrypted content; on failure the disk is unchanged |
| SegmentDownloader.FirstSuccess | downloader/utils/downloader.py:44-78 | the attempt that wins is the first in range that succeeds, and every attempt before it fails |
| SegmentDownloader.Backoff | downloader/utils/downloader.py:73-74 | after the k-th failed attempt that is not the last, the loop sleeps k seconds |
| SegmentDownloader.TryAttempt | downloader/utils/downloader.py:45-65 | one attempt fails exactly when its fetch or its decryption does; a success leaves its content in the segment file; a failure touches no other file |
| SegmentDownloader.DownloadSegment | downloader/utils/downloader.py:20-78 | the first successful attempt returns the segment path with its content in place after sleeping 1..k seconds; when all fail the result is None, the partial file is removed and no sleep follows the last attempt |
| VideoMerger.FirstWorking | downloader/utils/merger.py:14-38 | a binary found is one of the candidates and its `-version` probe exited with 0 |
| VideoMerger.FirstWorkingAt | downloader/utils/merger.py:24-35 | a candidate that works after candidates that timed out or were missing is the one returned |
| VideoMerger.FirstWorkingAbsent | downloader/utils/merger.py:24-38 | no binary is found, without an exception, exactly when every candidate timed out, was missing or exited with a non-zero code |
| VideoMerger.FindFfmpeg | downloader/utils/merger.py:14-38 | the loop over the four fixed candidates computes the first-working search |
| VideoMerger.ShellStyleEscapeMisread | downloader/utils/merger.py:73-74 | the list line the source writes for the path `a'b` is read by ffmpeg as `a""b` |
| VideoMerger.ListLineNamesPath | downloader/utils/merger.py:70-74 | with the quote escaping ffmpeg expects (the corrected list line), ffmpeg reads back from each `file '...'` line exactly the path it was written for, whatever quotes, backslashes or spaces the path holds |
| VideoMerger.QuoteFreePathsAgree | downloader/utils/merger.py:73-74 | a path without a quote is written unchanged by both escapings, so the source's list line is the corrected one and is read back as the path |
| VideoMerger.ListLines | downloader/utils/merger.py:70-74 | the list has one line per segment path, in the given order |
| VideoMerger.EscapeAddsOnlyQuotes | downloader/utils/merger.py:73 | the corrected escaping adds only quotes and backslashes: any other character absent from the path stays absent |
| VideoMerger.ShellStyleEscapeAddsOnlyQuotes | downloader/utils/merger.py:73 | the source's escaping adds only single and double quotes, so a path without a line break gives a line without one |
| VideoMerger.FileListLines | downloader/utils/merger.py:70-74 | split at line breaks, the list file is exactly one line per segment followed by the empty rest after the last break |
| VideoMerger.ConcatExistingAppend | downloader/utils/merger.py:119-129 | concatenating the existing segments of two lists joined is joining their concatenations |
| VideoMerger.ConcatExistingOfEmpty | downloader/utils/merger.py:120-129 | missing and empty segment files contribute nothing to the output |
| VideoMerger.ConcatExistingOne | downloader/utils/merger.py:121-127 | one existing segment contributes its whole contents |
| VideoMerger.AppendInChunks | downloader/utils/merger.py:123-127 | copying 8192 bytes at a time appends exactly the segment's bytes to the output |
| VideoMerger.MergeSimpleConcat | downloader/utils/merger.py:116-136 | the output, emptied when opened, ends up with the existing segments in order; a failing open of the output fails the merge and changes nothing |
| VideoMerger.MergeWithFfmpeg | downloader/utils/merger.py:64-114 | writes the list, runs ffmpeg, removes the list once ffmpeg has exited, then keeps ffmpeg's output on exit code 0 and falls back to concatenation otherwise; a timeout fails without fallback |
| VideoMerger.MergeSegments | downloader/utils/merger.py:40-62 | creates the output's directory, then merges with ffmpeg when one was found and by concatenation otherwise; any exception fails the merge |
| VideoMerger.WithoutFfmpegConcatenates | downloader/utils/merger.py:55-58 | without ffmpeg, and with a directory that can be created, the merge succeeds and the output is the existing segments in order |
| VideoMerger.BareOutputNameFails | downloader/utils/merger.py:53 | an output path with no directory part fails the merge before anything is written, since `makedirs('')` raises |
| VideoMerger.TimeoutFailsAndKeepsList | downloader/utils/merger.py:87-110 | a timed-out ffmpeg fails the merge without the fallback, and its list file stays on disk |
| VideoMerger.ExitRemovesList | downloader/utils/merger.py:94-98 | once ffmpeg has exited, whatever its code, the list file is gone |
| VideoMerger.FailedExitFallsBack | downloader/utils/merger.py:100-106 | a non-zero exit gives the result of a raw concatenation over what ffmpeg left, the list file removed |
| VideoMerger.SimpleConcatSucceedsUnlessOutputFails | downloader/utils/merger.py:116-136 | the raw concatenation succeeds exactly when the output can be opened, even with every segment missing, leaving an empty output |
| DjangoModels.StatusChoicesDistinct | downloader/models.py:7-15 | the seven task statuses are distinct, every segment status is also a task status, and paused, merging and cancelled are for tasks only |
| DjangoModels.NewTask | downloader/models.py:17-47 | a new task is pending at progress 0 with no segments counted, no sizes, start or completion time, and empty temporary directory, key, IV and error |
| DjangoModels.NewSegment | downloader/models.py:64-74 | a new segment record is pending with no retries, no file, no size, no completion time and no error |
| DjangoModels.DisplayTitle | downloader/models.py:53 | the shown title is never empty: the title itself, or `Untitled` when it is blank |
| DjangoModels.TaskLabel | downloader/models.py:52-53 | a task's label is its shown title, ` - `, then its status |
| DjangoModels.SegmentLabel | downloader/models.py:80-81 | a segment's label is `Segment <index> of ` followed by its task's shown title |
| DjangoModels.DenseAscending | downloader/models.py:76-78 | records of one task come in strictly ascending index order, so `(task, index)` is unique |
| DjangoModels.DenseRecords | downloader/models.py:76-78 | a task has a record with index k exactly when k lies in 0 up to its number of records |
| DjangoModels.DenseAppend | downloader/tasks.py:59-65 | creating the record with the task's next index keeps every task's indices 0, 1, 2, ... |
| DjangoModels.DenseUpdate | downloader/models.py:76-78 | saving a record in place, its task and index kept, keeps the table dense |
| DjangoSerializers.ValidateStatus | downloader/serializers.py:63-81 | a new status is refused exactly when the instance's current status has a row in the table and the row does not list the value, with the message `Cannot transition from <current> to <value>`; an accepted value is returned unchanged |
| DjangoSerializers.TableIsTransitions | downloader/serializers.py:64-72 | the table has a row for each of the seven task statuses, and accepts exactly the listed transitions from them |
| DjangoSerializers.CompletedIsFinal | downloader/serializers.py:70 | a completed task can be moved to no status at all |
| DjangoSerializers.NoSelfTransition | downloader/serializers.py:64-72 | no task status may be set to itself |
| DjangoSerializers.UncheckedPasses | downloader/serializers.py:74-81 | with no instance, or a current status outside the table, every value passes unchanged |
| DjangoSerializers.EveryStatusButCompletedMoves | downloader/serializers.py:64-72 | every status other than completed has at least one allowed successor |
| DjangoSerializers.StripEmptyIffBlank | downloader/serializers.py:51 | the stripped URL is empty exactly when the URL is nothing but white space |
| DjangoSerializers.ValidateUrl | downloader/serializers.py:50-55 | a URL is accepted, unchanged, exactly when it starts with `http://` or `https://`; a blank one is refused as empty, any other as having the wrong scheme |
| DjangoTasks.ConflictStops | downloader/tasks.py:60-65 | once a `create` has raised on an existing `(task, index)`, the rest of the loop never runs |
| DjangoTasks.StartDownloadTask | downloader/tasks.py:15-80 | a pending task is set downloading and logged, then failed when the parse has no segments; otherwise its counts, key, IV and temporary directory are stored, its records created and the download job queued; any exception, a `makedirs` error or a uniqueness conflict among them, fails the task with its message |
| DjangoTasks.CreateSegmentRecords | downloader/tasks.py:59-65 | the creation loop appends records one URL at a time until the first `(task, index)` already recorded, and touches no other table |
| DjangoTasks.FreshSegments | downloader/tasks.py:60-65 | a first start makes one new record per URL, with index i and the i-th URL |
| DjangoTasks.FreshStep | downloader/tasks.py:60-65 | the record with the task's next index causes no conflict, keeps the table dense and adds one to the task's count |
| DjangoTasks.CreateFresh | downloader/tasks.py:59-65 | for a task without records, creation appends indices 0 .. n-1 in order, without conflict, and keeps the table dense |
| DjangoTasks.CreateOverExisting | downloader/tasks.py:59-65 | a task that already has records conflicts at index 0 and creates nothing |
| DjangoTasks.StartOnlyWhenPending | downloader/tasks.py:19-23 | a missing task, or one that is not pending, is left alone and the store is unchanged |
| DjangoTasks.StartWithoutSegmentsFails | downloader/tasks.py:41-45 | a parse with no segments fails the task with its message and creates no record and no job |
| DjangoTasks.StartCreatesRecords | downloader/tasks.py:47-68 | a first start records segments 0 .. n-1 with the playlist's URLs in order, keeps the table dense, sets the total and temporary directory and queues the download job |
| DjangoTasks.StartOverRecordsFails | downloader/tasks.py:59-80 | a start over existing records fails the task with the database's uniqueness error and creates nothing |
| DjangoTasks.StartKeepsDense | downloader/tasks.py:59-65 | every start keeps every task's record indices 0, 1, 2, ... |
| DjangoTasks.RecordPosition | downloader/models.py:76-78 | the lookup of `(task, index)` finds the record with them, or reports that there is none |
| DjangoTasks.CreateOrResetRestarts | downloader/tasks.py:59-65 | with records reset in place instead of re-created, the table stays dense and every index below n has one new-state record with the new URL |
| DjangoTasks.StartReusingRestarts | downloader/tasks.py:47-68 | the corrected start always gets going: the task is downloading with the new total, every index has its reset record, and the download job is queued |
| DjangoTasks.SingleJobs | downloader/tasks.py:96-102 | one single-segment job per selected record, in order |
| DjangoTasks.DownloadSegmentsJob | downloader/tasks.py:83-108 | for a downloading task, queues one job per pending record and then the completion check; the status read inside the loop is the one loaded before it, so it never stops the loop |
| DjangoTasks.PendingJobsStep | downloader/tasks.py:94-102 | one turn of the dispatch loop queues a job for the record exactly when it is a pending record of the task |
| DjangoTasks.WhereAscendingIndex | downloader/tasks.py:94 | the records of one task, picked out in table order, come in ascending index order |
| DjangoTasks.DispatchInIndexOrder | downloader/tasks.py:94-105 | the queued jobs name exactly the task's pending records, each once, in ascending index order, and the completion check comes last |
| DjangoTasks.DownloadSingleSegment | downloader/tasks.py:111-160 | for a downloading task, a fetched segment is completed with its path and size and the task's count and progress recomputed; a failed one gets one more retry and the task one more failure, and is queued again while below 3 retries |
| DjangoTasks.SuccessCountsCompleted | downloader/tasks.py:134-145 | a completed download sets the task's downloaded count to its completed records and the progress to their share of the total, and queues nothing |
| DjangoTasks.FailureCountsAttempt | downloader/tasks.py:147-157 | a failed download adds one to the segment's retries and to the task's failures, and requeues the segment exactly when its new count is below 3 |
| DjangoTasks.SingleOnlyWhileDownloading | downloader/tasks.py:118-119 | a job for a task that is not downloading changes nothing |
| DjangoTasks.SingleKeepsDense | downloader/tasks.py:121-150 | the single-segment job keeps each record's task and index, so the table stays dense |
| DjangoTasks.CheckDownloadCompletion | downloader/tasks.py:163-198 | moves the task to merging, logs and queues the merge when every segment is completed; fails and logs it when the failures make up the rest; leaves it alone otherwise |
| DjangoTasks.CheckDecides | downloader/tasks.py:169-195 | the check merges exactly when the completed count equals the total, fails with the failure count's message exactly when failures make up the rest, and otherwise changes nothing, whatever the task's status |
| DjangoTasks.CheckIgnoresCancellation | downloader/tasks.py:167-175 | a cancelled task whose segments are all completed is still moved to merging |
| DjangoTasks.PathsAt | downloader/tasks.py:215 | the merge inputs are the chosen records' file paths, in the same order |
| DjangoTasks.OutputFileName | downloader/tasks.py:224-226 | the output file name always ends in `.mp4` |
| DjangoTasks.OutputFileNameCases | downloader/tasks.py:224-226 | the name is the title when it ends in `.mp4`, else the title or `download_<id>` with `.mp4` added, and naming a named file again changes nothing |
| DjangoTasks.MergeSegmentsJob | downloader/tasks.py:201-282 | for a merging task, fails it when no completed segment file exists; otherwise merges them into the output path, completing the task, adding the file record, logging and queueing the clean-up on success, failing and logging on failure |
| DjangoTasks.MergeInputsInIndexOrder | downloader/tasks.py:213-215 | the merger gets exactly the files of the task's completed records that exist, each once, in ascending index order |
| DjangoTasks.OutputPathCases | downloader/tasks.py:227-230 | the output path is the task's own when set; otherwise `os.path.join` of `~/Downloads` and the file name, so an absolute title is its own path |
| DjangoTasks.MergeOutcome | downloader/tasks.py:217-272 | a merging task completes exactly when there are inputs and the merger succeeds, with the output path stored, one file record added and the clean-up queued; otherwise it fails with no record or job added; segment records never change |
| DjangoViews.Pause | downloader/views.py:39-53 | the pause action on the database computes its reference response: rejected with no change unless the task is downloading, else paused |
| DjangoViews.Resume | downloader/views.py:55-72 | the resume action on the database computes its reference response: rejected unless paused or failed, else downloading with a start job queued |
| DjangoViews.Cancel | downloader/views.py:74-88 | the cancel action on the database computes its reference response: rejected when completed or cancelled, else cancelled |
| DjangoViews.Retry | downloader/views.py:90-113 | the retry action on the database computes its reference response: rejected unless failed, else reset to pending with a start job queued |
| DjangoViews.Active | downloader/views.py:115-122 | the active set holds only ids of stored tasks |
| DjangoViews.MissingTaskNotFound | downloader/views.py:42 | every action on a missing task answers 404 and changes nothing |
| DjangoViews.RejectionChangesNothing | downloader/views.py:44-99 | a rejected action leaves the whole store as it was |
| DjangoViews.PauseGuard | downloader/views.py:44-53 | pause succeeds exactly from downloading and then changes only the status, to paused; otherwise it gives the pause error |
| DjangoViews.ResumeGuard | downloader/views.py:60-72 | resume succeeds exactly from paused or failed, sets downloading and queues a start, and changes nothing else |
| DjangoViews.CancelGuard | downloader/views.py:79-88 | cancel succeeds from every status but completed and cancelled and changes only the status |
| DjangoViews.RetryGuard | downloader/views.py:95-111 | retry succeeds exactly from failed; it resets status, progress, size, counters and error, keeps the total, temporary directory, URL and output path, the segment records and the history, and queues a start |
| DjangoViews.GuardsExceedTable | downloader/views.py:79-108 | the actions make three moves the update serializer refuses: merging to cancelled, failed to cancelled and failed to pending |
| DjangoViews.GuardsWithinTable | downloader/views.py:44-88 | the other moves the actions make are ones the update serializer allows |
| DjangoViews.ActiveMembers | downloader/views.py:118-120 | a task is active exactly when it is stored with status pending, downloading or merging |
| DjangoViews.ActionsAndActive | downloader/views.py:39-122 | a successful pause or cancel takes the task out of the active set, and a successful resume or retry puts it in |
| DjangoViews.ResumeThenStartIsIdle | downloader/views.py:66-70 | after a resume the task is downloading, so the start job it queues returns at once and no segment is fetched again |
| DjangoViews.ResumeRestartingDispatches | downloader/views.py:66-70 | a resume that queues the segment-dispatch job instead fetches every pending segment of the task, in index order, then checks completion |
| DjangoViews.RetryThenStartFails | downloader/views.py:101-111 | a retry of a task with segment records makes the start it queues fail on the uniqueness constraint, so the task ends failed with no record made |
| DjangoViews.RetryThenRestartSucceeds | downloader/views.py:101-111 | with the start that resets existing records, a retry goes ahead: downloading, one new-state record per index, dispatch queued |
| NodeDownloadTask.ProgressOf | backend-node/models/DownloadTask.js:46-52 | progress is 0 without segments, and otherwise the integer nearest to the exact ratio 100·downloaded/total, exact halves rounded up |
| NodeDownloadTask.ProgressBounds | backend-node/models/DownloadTask.js:46-52 | progress is never negative, at most 100 while no more segments are counted than there are, exactly 100 when all are and 0 when none are |
| NodeDownloadTask.ProgressOverHundred | backend-node/models/DownloadTask.js:50 | on the exact ratio, progress goes over 100 exactly when 200·downloaded is at least 201·total, so a count just over the total still shows 100 |
| NodeDownloadTask.ProgressMonotone | backend-node/models/DownloadTask.js:50 | more segments downloaded never lowers the progress |
| NodeDownloadTask.View | backend-node/models/DownloadTask.js:97-115 | the status view copies id, status, progress and counts, and reports the number of failed segments rather than the list |
| NodeDownloadTask.Initial | backend-node/models/DownloadTask.js:2-36 | a new task has the given status or `pending` when none is given, no segments, zero counts and progress, `convertToMp4` false unless given, and no encryption, key or error |
| NodeDownloadTask.DownloadTask.constructor | backend-node/models/DownloadTask.js:2-36 | the object built is the initial task state for its options |
| NodeDownloadTask.DownloadTask.CalculateProgress | backend-node/models/DownloadTask.js:46-52 | only the progress changes, to the exact share of downloaded segments rounded to the nearest integer |
| NodeDownloadTask.DownloadTask.UpdateStatus | backend-node/models/DownloadTask.js:39-43 | the status and update time are set and the progress recomputed; nothing else changes |
| NodeDownloadTask.DownloadTask.Pause | backend-node/models/DownloadTask.js:68-73 | the new state is `PauseOf` the old: a downloading task becomes paused with a new update time, any other task is left as it is |
| NodeDownloadTask.DownloadTask.Resume | backend-node/models/DownloadTask.js:76-81 | the new state is `ResumeOf` the old: a paused task becomes downloading with a new update time, any other task is left as it is |
| NodeDownloadTask.DownloadTask.Cancel | backend-node/models/DownloadTask.js:84-87 | any task becomes cancelled with a new update time, whatever its status |
| NodeDownloadTask.DownloadTask.RetryFailedSegments | backend-node/models/DownloadTask.js:90-94 | the new state is `RetryOf` the old: the failed list emptied and the task set downloading, whatever its status, nothing else changed but the update time |
| NodeDownloadTask.DownloadTask.GetStatus | backend-node/models/DownloadTask.js:97-115 | the status view is that of the current state |
| NodeDownloadTask.PauseResumeRoundTrip | backend-node/models/DownloadTask.js:68-81 | `pause` then `resume` gives a downloading task back, and `resume` then `pause` a paused one, up to the update time |
| NodeDownloadTask.PauseResumeGuards | backend-node/models/DownloadTask.js:68-81 | `pause` leaves every task that is not downloading as it is and `resume` every task that is not paused; each is idempotent, and pausing keeps the downloaded count |
| NodeDownloadTask.RetryClearsFailures | backend-node/models/DownloadTask.js:90-106 | after `retryFailedSegments` the view reports no failed segments, the same downloaded count and status downloading; a second retry changes only the time, and a retried task can be paused |
| TimeFormat.TimeReading | backend-node/models/DownloadTask.js:147-159 | under a minute the seconds themselves; under an hour minutes and seconds that add back up to the duration; from an hour on whole hours and minutes that account for it to within a minute |
| TimeFormat.ReadingUnique | frontend/src/utils/index.js:13-25 | the parts of each band are the only ones meeting its equations, so the reading is determined by the duration |
| TimeFormat.FormatTimeUnit | frontend/src/utils/index.js:13-25 | below an hour the text ends in seconds (`秒`), from an hour on in minutes (`分`) |
| NodeDownloadController.RangeIsOneBasedInclusive | backend-node/controllers/downloadController.js:152-158 | a 1-based inclusive range a..b inside the playlist keeps exactly segments a to b, with their own indices |
| NodeDownloadController.RangeEdges | backend-node/controllers/downloadController.js:152-158 | without a range, or with both bounds 0 (falsy), the playlist is kept; a start past the end, or after the end bound, leaves no segment |
| NodeDownloadController.RangeNegativeEnd | backend-node/controllers/downloadController.js:155-156 | a negative end counts from the back as `slice` does: an end of -1 drops the last segment |
| NodeDownloadController.SegmentFileInjective | backend-node/controllers/downloadController.js:241 | two segments share a file exactly when they have the same index |
| NodeDownloadController.ExistingFileIsCounted | backend-node/controllers/downloadController.js:243-248 | a segment whose file is already there is counted as downloaded without a fetch |
| NodeDownloadController.IvChoice | backend-node/controllers/downloadController.js:265 | the IV is the key descriptor's when it has a non-empty one, else the segment's own index as a number |
| NodeDownloadController.PlainWithoutKey | backend-node/controllers/downloadController.js:260-266 | without a key descriptor or without a key, the response is written as it came |
| NodeDownloadController.DrainCountsEach | backend-node/controllers/downloadController.js:212-236 | the workers count every queued segment exactly once, as downloaded or as failed; the failed list only grows at its end and files are only added |
| NodeDownloadController.DrainLeavesFiles | backend-node/controllers/downloadController.js:212-273 | after the workers every queued segment has its file on disk or is on the failed list |
| NodeDownloadController.DrainWithoutFailures | backend-node/controllers/downloadController.js:212-236 | when every fetch succeeds the failed list stays as it was and every segment is counted as downloaded |
| NodeDownloadController.MergeInputsAsWritten | backend-node/controllers/downloadController.js:303-304 | the merge as written reads `segment_0.ts` to `segment_{n-1}.ts`, by loop position |
| NodeDownloadController.MergeInputs | backend-node/controllers/downloadController.js:241 | the downloads write one file per queued segment, named by the segment's own index, in queue order |
| NodeDownloadController.KeySpec | backend-node/controllers/downloadController.js:276-289 | the key fetch fails with `缺少加密密钥URI` when the descriptor has no URI, and otherwise succeeds exactly when the URI's fetch does, with its bytes as the key |
| NodeDownloadController.DownloadSegment | backend-node/controllers/downloadController.js:240-273 | one segment is counted, with its file written when it was not there, or the call throws and nothing changes, leaving the caller to push it onto the failed list |
| NodeDownloadController.DownloadWorker | backend-node/controllers/downloadController.js:184-194 | the workers over a copy of the task's segments leave task and disk as the sequential drain does: nothing for a cancelled task, else every segment processed in order |
| NodeDownloadController.ReadSegments | backend-node/controllers/downloadController.js:303-310 | the merge loop reads the existing files among `segment_0.ts` .. `segment_{n-1}.ts`, in order, concatenated |
| NodeDownloadController.MergeSegments | backend-node/controllers/downloadController.js:292-329 | merging, the output written from the files read, the output path stored, completed, and the temporary directory removed |
| NodeDownloadController.DownloadSegmentsConcurrently | backend-node/controllers/downloadController.js:184-209 | the drain, then nothing for a cancelled task, `partial` after any failure, and the merge otherwise |
| NodeDownloadController.ContinueDownloadProcess | backend-node/controllers/downloadController.js:332-337 | only a paused task is set downloading and drained again; any other is left alone |
| NodeDownloadController.DownloadEncryptionKey | backend-node/controllers/downloadController.js:276-289 | stores the key the fetch returned, or reports the message it throws and changes nothing |
| NodeDownloadController.ApplyPlaylist | backend-node/controllers/downloadController.js:148-161 | stores the playlist's segments, count and key descriptor, applies the range and sets the temporary directory |
| NodeDownloadController.StartDownloadProcess | backend-node/controllers/downloadController.js:139-181 | parsing; the playlist or the parse error; the range; the temporary directory; the key when encrypted; then downloading and the workers; any throw sets `error` with its message |
| NodeDownloadController.TitleOrDefault | backend-node/controllers/downloadController.js:30 | a non-empty title is kept, else the title is `video_` followed by the current time |
| NodeDownloadController.Controller.constructor | backend-node/controllers/downloadController.js:15 | the table of active tasks starts empty |
| NodeDownloadController.Controller.Start | backend-node/controllers/downloadController.js:18-51 | an empty URL is refused with 400 and no task; otherwise a new pending task is stored under the new id, built from the request's options, and the reply names it |
| NodeDownloadController.Controller.Status | backend-node/controllers/downloadController.js:54-66 | 404 exactly when the id is unknown, else the task's status view |
| NodeDownloadController.Controller.Toggle | backend-node/controllers/downloadController.js:69-89 | 404 for an unknown id; else a downloading task is paused, a paused one resumed and continued, and the reply carries the status after that |
| NodeDownloadController.Controller.Cancel | backend-node/controllers/downloadController.js:92-115 | 404 for an unknown id; else the task is cancelled, its temporary directory removed and it is dropped from the table; a task whose playlist was never parsed has no directory, and the disk stays as it was |
| NodeDownloadController.Controller.Retry | backend-node/controllers/downloadController.js:118-136 | 404 for an unknown id; else the failed list is reset and the download continued, as the retry route's reference does |
| NodeDownloadController.RangeKeepsIndicesDistinct | backend-node/controllers/downloadController.js:152-158 | the playlist numbers segments 0, 1, 2, ... and any range of them keeps the indices ascending |
| NodeDownloadController.WorkersCountEach | backend-node/controllers/downloadController.js:184-209 | workers started on a task with nothing counted count each segment once, and end the task `partial` or `completed` with progress within 0..100 |
| NodeDownloadController.StartCountsEach | backend-node/controllers/downloadController.js:139-209 | a fresh task ends the start process `error`, `partial` or `completed`; outside `error` every segment is counted once, and progress stays within 0..100 on every path |
| NodeDownloadController.StartParseFailure | backend-node/controllers/downloadController.js:146-180 | a playlist that does not parse leaves the task in `error` with the parser's message, its segments and the disk as they were |
| NodeDownloadController.StartMissingKeyUri | backend-node/controllers/downloadController.js:165-180 | an encrypted playlist whose key descriptor has no URI stops in `error` with `缺少加密密钥URI` before any segment is fetched |
| NodeDownloadController.OutcomeOfDrain | backend-node/controllers/downloadController.js:196-206 | after the workers a task is `partial` exactly when some segment failed, with the disk untouched, and otherwise merged and `completed` with its output file set |
| NodeDownloadController.CancelledStaysPut | backend-node/controllers/downloadController.js:196-198 | a cancelled task is left exactly as it is by the workers and what follows them |
| NodeDownloadController.ToggleRoundTrip | backend-node/controllers/downloadController.js:77-83 | toggling a downloading task pauses it, and toggling again gives it back unchanged but for the update time, fetching nothing |
| NodeDownloadController.Fetches | backend-node/controllers/downloadController.js:250-266 | one piece of fetched bytes per queued segment |
| NodeDownloadController.StepWrites | backend-node/controllers/downloadController.js:260-269 | a segment not on disk whose fetch succeeds is written under its own file |
| NodeDownloadController.WroteAllStep | backend-node/controllers/downloadController.js:269 | writing one more piece under a new path extends what the workers have written |
| NodeDownloadController.NotWrittenYet | backend-node/controllers/downloadController.js:244 | a path that was not there and has not been written since is still not on disk |
| NodeDownloadController.LastPathIsNew | backend-node/controllers/downloadController.js:241 | with distinct indices the last segment's file is none of the earlier ones' |
| NodeDownloadController.DrainWritesEach | backend-node/controllers/downloadController.js:212-273 | into a directory holding none of their files, workers without failures write each segment's bytes under its own index, and add nothing else |
| NodeDownloadController.ConcatWritten | backend-node/controllers/downloadController.js:303-310 | reading back each written file in order gives the pieces one after another |
| NodeDownloadController.MergeByIndexKeepsData | backend-node/controllers/downloadController.js:184-329 | with the merge reading each segment by its own index, a download without failures into a fresh directory completes with exactly the fetched bytes in order, whatever the range, and leaves nothing under the temporary directory |
| NodeDownloadController.SegmentUnderTempDir | backend-node/controllers/downloadController.js:241 | a segment file lies under its temporary directory |
| NodeDownloadController.RangedMergeDropsSegment | backend-node/controllers/downloadController.js:152-158 | as written, two segments with `startSegment = 2` complete with an empty output, because segment 1 is written to `segment_1.ts` and the merge reads `segment_0.ts`; read by index, the output holds the segment's bytes |
| NodeDownloadController.RetryRouteIsIdle | backend-node/controllers/downloadController.js:118-136 | as written, the retry route only runs `retryFailedSegments`: the task is already downloading, which the continuation ignores, so a partial task drops its failed segments without fetching them |
| NodeDownloadController.RetryByQueueCounts | backend-node/controllers/downloadController.js:118-136 | queuing the failed segments again keeps every segment counted once, and the task ends `partial` or `completed` |
| NodeDownloadController.RetryByQueueCompletes | backend-node/controllers/downloadController.js:118-136 | when every failed segment now downloads, the retry that requeues them completes the task at 100 % |
| NodeTaskHistory.FindIndex | backend-node/controllers/taskController.js:65 | `findIndex` gives the first record with the id, or -1 when no record has it |
| NodeTaskHistory.InsertKeepsOrder | backend-node/controllers/taskController.js:22 | inserting into a newest-first sequence keeps it newest first and adds exactly the one element |
| NodeTaskHistory.InsertIsStable | backend-node/controllers/taskController.js:22 | among elements of one key, insertion keeps their old order and puts the new one last |
| NodeTaskHistory.SortOrders | backend-node/controllers/taskController.js:22 | the sort by descending creation time orders newest first and is a permutation of its input |
| NodeTaskHistory.SortIsStable | backend-node/controllers/taskController.js:22 | the sort is stable: records with equal timestamps keep their order in the array |
| NodeTaskHistory.ListTotal | backend-node/controllers/taskController.js:10-33 | `total` counts the records of the status asked for (all records without one) before paging; `limit` and `offset` are the parameters as `parseInt` reads them, 50 and 0 when absent (`null` for NaN); `hasMore` holds exactly when both are numbers and `offset + limit < total`; a NaN parameter gives an empty page |
| NodeTaskHistory.ListDefaults | backend-node/controllers/taskController.js:10-33 | without parameters the page is the first 50 matching records newest first, with `hasMore` exactly when there are more than 50 |
| NodeTaskHistory.ListWindow | backend-node/controllers/taskController.js:20-23 | when both parameters read as non-negative numbers the page is positions offset up to offset + limit of the matching records sorted newest first, cut at the end, and empty from the end on |
| NodeTaskHistory.ListPageOrdered | backend-node/controllers/taskController.js:12-23 | whatever the parameters, the listed records are newest first, all from the array, and all of the status asked for |
| NodeTaskHistory.PageOfSorted | backend-node/controllers/taskController.js:21-23 | any `slice` of a sorted selection is still sorted, still from the array and still of the status |
| NodeTaskHistory.SlicedPage | backend-node/controllers/taskController.js:23 | a non-negative `slice` is the window cut at the end, empty past it, and keeps order and the filter |
| NodeTaskHistory.SliceKeeps | backend-node/controllers/taskController.js:23 | any `slice`, negative bounds included, of a sorted sequence is sorted, part of it, and keeps the filter |
| NodeTaskHistory.ParseIntReadsDecimal | backend-node/controllers/taskController.js:23 | `parseInt` reads the decimal text of every integer back as that integer |
| NodeTaskHistory.ParseIntStopsAtNonDigit | backend-node/controllers/taskController.js:23 | `parseInt` reads leading decimal digits and ignores what follows them, so `10x` is 10 |
| NodeTaskHistory.ParseIntReadsHex | backend-node/controllers/taskController.js:23 | `0x` followed by hexadecimal digits is read in base 16 |
| NodeTaskHistory.ParseIntWithoutDigits | backend-node/controllers/taskController.js:23 | the empty text, and text that opens with neither white space, a sign nor a digit, is NaN |
| NodeTaskHistory.ParseIntOfPlainDecimal | backend-node/controllers/taskController.js:23 | text that opens with a digit and not with `0x` is read as its leading decimal digits |
| NodeTaskHistory.MatchingIsWanted | backend-node/controllers/taskController.js:15-17 | the filtered records come from the array and each has the status asked for |
| NodeTaskHistory.GetTask | backend-node/controllers/taskController.js:42-59 | a record is found exactly when one has the id, and it is the first such; otherwise 404 |
| NodeTaskHistory.StatsOf | backend-node/controllers/taskController.js:113-122 | the summary counts all records and those of each of five statuses, `failed` counting the `error` ones |
| NodeTaskHistory.CountersPartition | backend-node/controllers/taskController.js:115-122 | the five counters add up to the number of records with one of their statuses |
| NodeTaskHistory.StatsWithinTotal | backend-node/controllers/taskController.js:115-122 | the counters never exceed the total, and reach it exactly when no record is pending, parsing, merging or partial |
| NodeTaskHistory.CountAll | backend-node/controllers/taskController.js:116-121 | a count reaches the length exactly when every element passes |
| NodeTaskHistory.CsvCells | backend-node/controllers/taskController.js:152-160 | a row is the id, the title and URL in double quotes without escaping, the status, the creation time, the completion time or empty, and the size or empty when it is 0 |
| NodeTaskHistory.CsvRows | backend-node/controllers/taskController.js:151-162 | one row per record, in array order, cells joined by commas |
| NodeTaskHistory.CsvLines | backend-node/controllers/taskController.js:148-162 | the header line first, then one line per record |
| NodeTaskHistory.Export | backend-node/controllers/taskController.js:135-172 | JSON by default or on request, the CSV lines joined by line breaks for `csv`, and 400 exactly for any other format |
| NodeTaskHistory.CsvReadsBack | backend-node/controllers/taskController.js:148-164 | when no field holds a comma or line break, the export reads back as the header and one line per record in array order, each splitting into that record's seven cells |
| NodeTaskHistory.RowReadsBack | backend-node/controllers/taskController.js:161 | a row whose cells hold no comma splits back into its cells |
| NodeTaskHistory.LineAvoidsBreak | backend-node/controllers/taskController.js:148-162 | no line of the export holds a line break when no field does |
| NodeTaskHistory.JoinAvoids | backend-node/controllers/taskController.js:161-164 | a join holds a character other than its separator only if a piece does |
| NodeTaskHistory.Snapshot | backend-node/controllers/taskController.js:175-187 | the history record copies id and status, is created now, and has a completion time exactly when the task is completed |
| NodeTaskHistory.RemoveFirst | backend-node/controllers/taskController.js:92-95 | splicing out a present element shortens the array by one; an absent one leaves it as it is |
| NodeTaskHistory.IndexOfValue | backend-node/controllers/taskController.js:92 | `indexOf` gives the first position of the element, or -1 exactly when it is absent |
| NodeTaskHistory.SpliceAtIndexOf | backend-node/controllers/taskController.js:92-95 | splicing at `indexOf` removes the element's first occurrence |
| NodeTaskHistory.RemoveInTurn | backend-node/controllers/taskController.js:91-96 | the clearing loop splices each selected record out in turn at its first position |
| NodeTaskHistory.RemoveStep | backend-node/controllers/taskController.js:92-95 | one turn of the loop takes out the next selected record when it is found |
| NodeTaskHistory.RemoveMatchesLeavesOthers | backend-node/controllers/taskController.js:88-96 | taking the records of a status out one by one leaves exactly the others, in order |
| NodeTaskHistory.TaskHistory.constructor | backend-node/controllers/taskController.js:5 | the history starts empty |
| NodeTaskHistory.TaskHistory.Delete | backend-node/controllers/taskController.js:62-81 | 404 and no change when no record has the id; else the first record with it is spliced out and the others keep their order |
| NodeTaskHistory.TaskHistory.Clear | backend-node/controllers/taskController.js:84-110 | with a status, exactly the other records are left, in order; without one, the array is emptied |
| NodeTaskHistory.TaskHistory.AddTaskToHistory | backend-node/controllers/taskController.js:175-196 | the task's snapshot replaces the first record with its id, or is appended |
| NodeTaskHistory.TaskHistory.UpdateTaskHistory | backend-node/controllers/taskController.js:199-207 | the first record with the id gets the updates, and the completion time when the new status is completed |
| NodeTaskHistory.DeleteTakesFirst | backend-node/controllers/taskController.js:65-71 | deleting takes out one record, the first with the id, and keeps every other |
| NodeTaskHistory.DeleteLeavesNoneWithId | backend-node/controllers/taskController.js:65-71 | with unique ids, no record with the deleted id remains and the rest keep unique ids |
| NodeTaskHistory.RemoveUnique | backend-node/controllers/taskController.js:71 | taking a record out of an array with unique ids leaves unique ids and none with its id |
| NodeTaskHistory.UpsertKeepsIdsUnique | backend-node/controllers/taskController.js:189-195 | the upsert keeps ids unique, grows the array by at most one, puts the record in, and grows it exactly when no record had the id; every other record stays in place |
| NodeTaskHistory.UpdateChangesOne | backend-node/controllers/taskController.js:199-207 | an update changes only the first record with the id, sets its completion time exactly when the new status is completed, and does nothing for a missing id |
| NodeTaskHistory.UpdateKeepsIdsUnique | backend-node/controllers/taskController.js:199-207 | an update that does not set the id keeps ids unique |
| NodeTaskHistory.ClearLeavesNoneOfStatus | backend-node/controllers/taskController.js:88-96 | clearing a status leaves no record of it and removes exactly as many records as had it |
| FilesViews.FindById | files/views.py:22 | `get_object` finds a stored row with the requested key, or reports that no row has it |
| FilesViews.SaveRow | files/views.py:157 | `save()` replaces exactly the rows with the object's key by the object and leaves every other row |
| FilesViews.MoveOnDisk | files/views.py:152 | `shutil.move` puts the source's bytes at the target, removes the source and leaves every other path |
| FilesViews.DownloadServes | files/views.py:19-42 | a file is served as an attachment exactly when its path exists, with the stored bytes and the row's file name; otherwise a 404 `File not found on disk` |
| FilesViews.DeleteRemoves | files/views.py:127-143 | a delete always answers 200; afterwards exactly the rows with other keys and the files at other paths remain, with their bytes |
| FilesViews.MoveOutcome | files/views.py:145-165 | a move succeeds exactly when the file is on disk; then its bytes are at the target and its rows take the target path and base name, other rows unchanged; a failed move changes nothing |
| FilesViews.BareTargetMoveFails | files/views.py:149 | as written, a move to a target with no directory part fails with a 500 and changes nothing, because `makedirs('')` raises |
| FilesViews.MoveAsWrittenElsewhere | files/views.py:145-165 | for a target with a directory part, the code as written and the corrected move agree exactly |
| FilesViews.MoveAsWrittenOutcome | files/views.py:145-165 | the move the views make succeeds exactly when the target has a directory part and the file is on disk, is then the corrected move, and changes nothing when it fails |
| FilesViews.RowAndBytesMoved | files/views.py:154-158 | saving the moved row and moving the bytes: rows with the key become the new row, other rows stay, and the bytes are at the new path |
| FilesViews.RenameOutcome | files/views.py:167-187 | a rename succeeds exactly when the file is on disk; then its rows take the new path and name and the bytes move there; a failed rename changes nothing |
| FilesViews.RenameStaysInDirectory | files/views.py:170-179 | for a name without `/`, the renamed path stays in the old directory and its last component is the new name |
| FilesViews.FileActionChangesOnlyOn200 | files/views.py:44-68 | every `file_action` answer other than a 200 leaves the rows and the disk as they were |
| FilesViews.FileActionRefusals | files/views.py:44-68 | an unknown key is a 404 whatever the body says; an invalid body for a stored row is a 400 with its field errors; a delete of a stored row whose texts hold no NUL character succeeds |
| FilesViews.BulkRun | files/views.py:82-102 | the bulk loop gives exactly one reply per selected file |
| FilesViews.BulkStep | files/views.py:82-102 | one more turn of the bulk loop handles the next file on the state the previous turns left, and appends its key to `success` or its key and error to `failed` |
| FilesViews.SuccessesAre | files/views.py:90-91 | a key is in `success` exactly when some file with that key was answered 200 |
| FilesViews.FailuresAre | files/views.py:92-96 | a key is in `failed` exactly when some file with that key was answered with something other than 200 |
| FilesViews.PartitionLength | files/views.py:82-102 | `success` and `failed` together have exactly one entry per selected file |
| FilesViews.PartitionExactlyOne | files/views.py:82-102 | with distinct keys, each selected file's key is in exactly one of the two lists, `success` exactly when its reply was 200 |
| FilesViews.FilterKeepsUniqueIds | files/views.py:79 | the `id__in` selection keeps the table's keys distinct |
| FilesViews.SelectedReports | files/views.py:79-102 | every key reported in either list belongs to a selected row |
| FilesViews.BulkReportsEachFile | files/views.py:70-104 | a valid bulk request answers with the two lists; each key in them was listed and has a row, and each listed key with a row is in exactly one list |
| FilesViews.BulkDeleteRemovesAll | files/views.py:82-102 | a bulk delete answers 200 for every selected file and leaves exactly the rows with unselected keys and the files at unselected paths |
| FilesViews.BulkDeleteOutcome | files/views.py:70-104 | a valid bulk delete reports every selected row as a success and none as failed, and leaves exactly the rows whose key was not listed |
| FilesViews.AllSucceeded | files/views.py:90-96 | when every reply is a 200, `failed` is empty and `success` has one key per file |
| FilesViews.FindType | files/views.py:115 | `file_type in by_type` finds the first entry of that type, or reports that none exists |
| FilesViews.SumsUpdate | files/views.py:117-118 | replacing one `by_type` entry changes the count and size sums by exactly the difference |
| FilesViews.SumsAppend | files/views.py:116 | a new `by_type` entry adds its count and size to the sums |
| FilesViews.TallySums | files/views.py:113-118 | one turn of the `by_type` loop adds exactly one file and its bytes to the sums |
| FilesViews.TallyDistinct | files/views.py:115-116 | one turn of the loop never creates a second entry for a type |
| FilesViews.TallyEntry | files/views.py:114-118 | one turn leaves the entries of other types alone and adds one file and its bytes to the entry of the file's type, creating that entry at the end when it is new |
| FilesViews.ByTypeTotals | files/views.py:109-118 | the `by_type` counts add up to `total_files` and the sizes to `total_size` |
| FilesViews.ByTypeDistinct | files/views.py:112-118 | `by_type` has at most one entry per type |
| FilesViews.ByTypeEntries | files/views.py:112-118 | the entry for a type holds that type's number of rows and bytes, and a type without an entry has no rows |
| FilesViews.CountOfTypePresent | files/views.py:113-116 | a type has a positive count exactly when some row has that type |
| FilesViews.ByTypeMeaning | files/views.py:106-125 | `by_type` has exactly one entry per type present, each with its type's count and bytes, and its sums are `total_files` and `total_size` |
| FilesViews.FileTable.constructor | files/views.py:16 | the table starts with the given rows |
| FilesViews.FileTable.DeleteFile | files/views.py:127-143 | the rows, the disk and the reply afterwards are exactly what the delete specification gives for the old state |
| FilesViews.FileTable.MoveFile | files/views.py:145-165 | the rows, the disk and the reply are exactly what the move as written gives for the old state: a 500 for a target without a directory part, else the corrected move |
| FilesViews.FileTable.RenameFile | files/views.py:167-187 | the rows, the disk and the reply are exactly what the rename specification gives for the old state |
| FilesViews.FileTable.DownloadFile | files/views.py:19-42 | an unknown key is a 404; a stored row gets the download reply for that row |
| FilesViews.FileTable.FileAction | files/views.py:44-68 | the rows, the disk and the reply are exactly what `file_action`'s specification gives for the old state, a move being the move as written |
| FilesViews.FileTable.BulkAction | files/views.py:70-104 | the rows, the disk and the reply are exactly what the bulk specification gives for the old state, with the files handled in table order and each move being the move as written |
| FilesViews.FileTable.Stats | files/views.py:106-125 | the answer's `total_files` is the number of rows, `total_size` their total size and `by_type` the per-type totals |
| FilesSerializers.CleanText | files/serializers.py:25-26 | a `CharField` value is present after cleaning exactly when it was given |
| FilesSerializers.ChoiceErrors | files/serializers.py:24 | a `ChoiceField` reports nothing exactly when the value is given and is one of the choices, else exactly one error |
| FilesSerializers.ValidateFileAction | files/serializers.py:23-37 | an accepted body keeps its action and carries the trimmed target and name |
| FilesSerializers.FileActionAccepted | files/serializers.py:23-37 | a body is accepted exactly when its action is delete, move or rename, its texts hold no NUL character, a move has a non-blank target and a rename a non-blank name; a delete needs neither |
| FilesSerializers.FileActionRejections | files/serializers.py:24-35 | each refusal carries its own message: required or not a valid choice, together with any NUL-character errors of the texts, in field order; target required for move and name required for rename only once the fields are clean |
| FilesSerializers.NullTargetRefused | files/serializers.py:25 | a target holding a NUL character is refused on its own field, as a `CharField` refuses it |
| FilesSerializers.TextErrors | files/serializers.py:25-26 | a text field has an error exactly when it holds a NUL character, and then only the one message |
| FilesSerializers.BlankTargetRefused | files/serializers.py:25 | a move to a target made only of white space is refused as having no target |
| FilesSerializers.IdErrors | files/serializers.py:41-44 | the id list reports nothing exactly when it is given and holds at least one id |
| FilesSerializers.ValidateBulk | files/serializers.py:40-54 | an accepted bulk body keeps its ids and action and carries the trimmed target |
| FilesSerializers.BulkAccepted | files/serializers.py:40-54 | a bulk body is accepted exactly when it lists at least one id, its action is delete or move, its target holds no NUL character, and a move has a non-blank target; rename is always refused |
| FilesSerializers.BulkReportsEveryField | files/serializers.py:41-45 | field errors are reported together: an empty id list and a bad action give both errors, ids first |
| TasksSerializers.ValidateHistoryFilter | tasks/serializers.py:19-32 | an accepted history filter is returned unchanged; a refused one carries the reversed-dates message |
| TasksSerializers.ValidateLogFilter | tasks/serializers.py:35-48 | an accepted log filter is returned unchanged; a refused one carries the reversed-dates message |
| TasksSerializers.HistoryFilterRule | tasks/serializers.py:25-32 | a history filter is refused exactly when both dates are given and the start is after the end; equal dates and a missing date pass |
| TasksSerializers.FiltersAgree | tasks/serializers.py:41-48 | the log filter accepts and refuses exactly as the history filter does for the same dates, with the same message |
| FrontendUtils.Uint32 | frontend/src/utils/index.js:110 | `>>> 0` gives a value in `[0, 2^32)` and leaves a value already in that range unchanged |
| FrontendUtils.FileExtensionAfterLastDot | frontend/src/utils/index.js:109-111 | with no dot, or only a leading dot, the extension is empty; otherwise it is everything after the last dot, and it never holds a dot |
| FrontendUtils.GetStatusText | frontend/src/utils/index.js:163-175 | a known status gets its label from the table; any other status is shown as itself |
| FrontendUtils.GetStatusType | frontend/src/utils/index.js:178-190 | a known status gets its tag type from the table, any other gets `info`; the result is always one of the five tag types |
| FrontendUtils.StatusTablesAgree | frontend/src/utils/index.js:164-188 | the label table and the tag table cover the same eight statuses |
| FrontendUtils.LabelsAreNotStatuses | frontend/src/utils/index.js:163-175 | a label is never itself a known status, and an unknown status is returned unchanged |
| FrontendUtils.BackendStatusesWithoutLabel | frontend/src/utils/index.js:163-190 | the backends' `partial` and `failed` statuses have no label: they are shown raw with the `info` tag |
| FrontendUtils.M3U8UrlIsValid | frontend/src/utils/index.js:99-106 | an M3U8 URL is a valid http(s) URL, and the `.m3u8` suffix test adds nothing to the two substring tests |
| FrontendUtils.DropWww | frontend/src/utils/index.js:243 | a host starting with `www.` loses exactly those four characters; any other host is unchanged |
| FrontendUtils.TitleSpan | frontend/src/utils/index.js:236 | the title span starts after the last `/` and ends at the first `.` after it, or at the end of the path |
| FrontendUtils.TitleInSpan | frontend/src/utils/index.js:236 | the two splits give exactly the stretch of the path that the title span marks |
| FrontendUtils.TitleChoice | frontend/src/utils/index.js:230-243 | for a parsed URL the title is the path title when it is non-empty and not `index`, and then has no `/` or `.`; otherwise it is the host without `www.` |
| Bytes.Zeros | backend-node/utils/aesDecryptor.js:17 | `Buffer.alloc(n)` is exactly `n` zero bytes |
| Bytes.ToHex | downloader/utils/m3u8_parser.py:147 | `bytes.hex()` spends exactly two digits per byte |
| Bytes.PyFromHexOfToHex | downloader/utils/downloader.py:87 | `bytes.fromhex` reads back exactly the key the parser stored with `.hex()` |
| Bytes.NodeFromHexOfToHex | backend-node/utils/aesDecryptor.js:38 | `Buffer.from(s, 'hex')` reads back exactly the bytes whose hex text `s` is |
| Bytes.PyFromHex | downloader/utils/downloader.py:87 | an accepted hex text decodes to at most one byte per two characters |
| Bytes.NodeFromHex | backend-node/utils/aesDecryptor.js:14 | Node's hex decoding gives at most one byte per two characters |
| Bytes.BigEndian | downloader/utils/downloader.py:95 | `to_bytes(width, 'big')` has exactly `width` bytes |
| Bytes.BigEndianRoundTrip | downloader/utils/downloader.py:95 | for a value that fits, the big-endian encoding denotes exactly that value |
| Files.Disk.Write | backend-node/controllers/downloadController.js:269 | writing a file sets that path's bytes and leaves every other path |
| Files.Disk.Remove | files/views.py:132 | removing a file takes out exactly that path |
| Files.Disk.RemoveTree | backend-node/controllers/downloadController.js:104 | removing a directory takes out exactly the files below it; removing the empty path takes out nothing |
| Files.Without | backend-node/controllers/downloadController.js:104 | the files left after removing a tree are exactly those not below it, with their bytes; the empty path leaves every file |
| Files.PathJoinInjective | downloader/utils/downloader.py:36 | within one directory, different file names give different paths |
| Files.Basename | files/views.py:156 | `os.path.basename` is a suffix of the path |
| Files.BasenameHasNoSlash | files/views.py:156 | the base name holds no `/`, and is the whole path when the path holds none |
| Files.Dirname | files/views.py:171 | `os.path.dirname` is empty, all slashes, or ends in something other than `/` |
| Files.DirnameBasenameOfJoin | files/views.py:171 | a name without `/` joined to a directory comes back out of `dirname` and `basename` unchanged |
| VideoMerger.ShellStyleEscape | downloader/utils/merger.py:73 | as written, a path without `'` is kept unchanged |
| VideoMerger.Escape | downloader/utils/merger.py:73 | the corrected escaping keeps a path without `'` unchanged |
| VideoMerger.EscapedQuoteReadsBack | downloader/utils/merger.py:73-74 | inside a quoted list entry, `'\''` reads back as one `'` |
| VideoMerger.TokenOfShellIdiom | downloader/utils/merger.py:73-74 | ffmpeg reads the source's escape of `a'b` as `a""b` |
| VideoMerger.ListLineHasNoBreak | downloader/utils/merger.py:74 | a path without a line break gives a list line without one |
| DjangoModels.Database.constructor | downloader/models.py:6-80 | the database starts with the given rows |

## Left out

- Network I/O: playlist, key and segment fetches are oracles passed in as results (text or bytes, or a failure). Request headers and timeouts are not modelled.
- The AES-128-CBC block cipher is an uninterpreted function parameter. Only the key and IV preparation and the padding logic around it are modelled. `generateRandomIV` draws random bytes and is left out.
- URL parsing and joining: `urljoin`, `urlparse` and Node's `new URL` are function parameters, or an `Option<Url>` of the parts they expose (`None` where the constructor throws).
- ffmpeg is a parameter: each candidate's `-version` exit code, and the outcome of the run (exit code, timeout or other exception). Its real reading of the concat list is modelled only as far as the quoting rules of the list lines.
- The clock: `timezone.now()`, `Date.now()`, `parseDate` and `nowIso` are integer parameters. Datetimes are integers.
- `time.sleep` between retries is recorded as a list of delays, not waited.
- Concurrency: Celery workers and Node's `Promise.all` workers run one after another. The pause polling with `setTimeout` is not modelled. A cancellation is seen only when it happened before the drain starts, since no other request can run during it.
- Socket progress events (`emitProgress`), the Channels consumers and the socket clients are not modelled.
- Floating point is left out: `_format_size`, `total_size_formatted`, `formatFileSize`, `formatSpeed`, `calculateSpeed`, `getEstimatedTimeRemaining`, EXTINF durations and `totalDuration`. Django's `progress` is a Dafny `real`, so completed / total × 100 is exact, without float rounding.
- Directories: `os.makedirs` and directory entries are not modelled. A move into an existing directory (which `shutil.move` would treat as "into") is not modelled. A target is always a file path.
- `cleanup_temp_files` is modelled only as being queued. Its `shutil.rmtree` is not modelled.
- Django's `save()` of a row that is no longer in the table would insert it again. The model only updates rows that exist.
- Error texts that Python builds with `repr` or `str(e)` are modelled as fixed texts per failure kind, without Python's quoting.
- The REST framework's 404 body is the reply `NotFound`.
- The outer exception handler of `file_action` is not modelled: the three helpers catch everything themselves, so it cannot be reached.
- `by_type` is a sequence in first-appearance order, as Python 3.7 dictionaries keep insertion order.
- File ids are integers.
- NodeDownloadTask.ProgressOf: computed on the exact ratio, where JavaScript rounds `downloaded / total * 100` in doubles before `Math.round`. At an exact half the double can fall just below it: 23 of 40 gives 57.49999… and 57 in the source, 58 in the model.
- NodeDownloadTask.DownloadTask.CalculateProgress: the same exact ratio as `ProgressOf`, so it can differ by one from the source at an exact half.
- NodeDownloadTask.ProgressOverHundred: stated on the exact ratio. In doubles 201 of 200 gives 100.49999… and 100, so the source reaches 101 a little later than the model's bound says.
- NodeTaskHistory.ListPage: a repeated query key (which Express gives as an array) is not modelled. Numbers beyond double precision (2^53) are read exactly.
- Files.PathJoin: joins with one separator and does not normalise `.`, `..` or repeated `/` as Node's `path.join` does. The joined names are controller-made (`segment_<n>.ts`, a title and extension, a task id), which hold none of these unless a title does.
- Node `DownloadTask` progress can exceed 100 when more segments are counted than exist. The model keeps that and states it (`ProgressOverHundred`) rather than excluding it.
- JavaScript object lookups in the status tables ignore inherited prototype keys such as `constructor`. Every other key is modelled.
- `toLowerCase` folds ASCII letters only. `toUpperCase` folds ASCII letters and the two characters that upper-case to `S` and `I` (long s and dotless i); other non-ASCII letters are left as they are.
- PyM3U8Parser.PyInt: reads ASCII decimal digits only. Python's `int()` also takes other Unicode decimal digits (`BANDWIDTH=１０００` is 1000 there); the model's scan fails on them.
- Logging: the `logger` calls of the Django modules and the `console` output of the Node controllers write only to logs and are not modelled.
- File system errors other than a missing file (permissions, a full disk) are not modelled.
- Python playlist recursion from a master playlist to its chosen variant is bounded by a `depth` parameter. The source recurses without a bound.
- FrontendUtils.GetFileExtension: its property is stated only for names shorter than 2^32 characters. Beyond that, `>>> 0` wraps and the source's answer is not an extension.
- PyM3U8Parser.Unquote: its own ensures only bounds the length. `UnquoteCases` states the cases.
- VideoMerger.Escape: its own ensures only covers paths without quotes. `ListLineNamesPath` states that ffmpeg reads the escaped line back as the path.
- VideoMerger.ShellStyleEscape: its own ensures only covers paths without quotes. `ShellStyleEscapeMisread` states what goes wrong.
- TimeFormat.FormatTime: the function carries no ensures of its own. `TimeReading` and `FormatTimeUnit` state its meaning.
- SegmentDownloader.TryAttempt: after a failed attempt its contract states the disk only outside the segment's own path, where a partial file may be left. `DownloadSegment` removes that file, as the source does, and its contract states the whole disk.
- Files that the core does not use are not part of this model: Node's `fileController.js`, the `tasks` app views, the routing and admin modules, and the front end's socket and DOM helpers (`copyToClipboard`, `downloadBlob`, `debounce`, `throttle`, `generateId`, `formatDateTime` and `deepClone`).

## Findings

| source | as written | input that shows it | evidently intended | confidence | as-written member | corrected member |
|---|---|---|---|---|---|---|
| downloader/utils/merger.py:73 | each `'` in a segment path becomes `'"'"'`, the POSIX-shell idiom, but ffmpeg's concat list has no double quotes | the path `a'b` | `'\''`, which ffmpeg reads back as one `'` | not executed | VideoMerger.ShellStyleEscapeMisread | VideoMerger.ListLineNamesPath |
| downloader/views.py:101-111 | `retry` resets the task to pending, but the task's segment records stay, and the start task creates records `(task, index)` again | a failed task with one segment record, retried | the records reset or reused, so the download restarts | not executed | DjangoViews.RetryThenStartFails | DjangoViews.RetryThenRestartSucceeds |
| downloader/views.py:66-70 | `resume` sets downloading and then queues `start_download_task`, which acts only on pending | a paused task, resumed | the remaining segments dispatched again | not executed | DjangoViews.ResumeThenStartIsIdle | DjangoViews.ResumeRestartingDispatches |
| backend-node/controllers/downloadController.js:304 | the merge reads `segment_${i}` for each position, while the downloads wrote `segment_${segment.index}` | two segments with `startSegment` 2 | the merge reads each segment by its own index | not executed | NodeDownloadController.RangedMergeDropsSegment | NodeDownloadController.MergeByIndexKeepsData |
| backend-node/controllers/downloadController.js:118-136 | the retry route calls `retryFailedSegments`, which sets downloading, then `continueDownloadProcess`, which acts only on paused | a partial task with failed segments, retried | the failed segments queued and downloaded again | not executed | NodeDownloadController.RetryRouteIsIdle | NodeDownloadController.RetryByQueueCompletes |
| files/views.py:149 | `_move_file` calls `os.makedirs(os.path.dirname(target))`, which raises for a target without a directory part | the target `clip.mp4` | the directory created only when there is one | not executed | FilesViews.BareTargetMoveFails | FilesViews.MoveOutcome |
