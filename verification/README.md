# Verified models of the operating-systems course code

This project models the parts of the repository that hold real algorithms and proves, with Dafny, what they are for.
`dafny verify dfyconfig.toml` checks all of it. Code that changes fields, buffers or arrays step by step is modelled
by classes and loops of the same shape; each of them is proved equal to a specification function, and the theorems are
about those functions.

| files | what they model |
|---|---|
| `HttpModel`, `HttpRun` | the HTTP/1.x push parser in its default strict build: the switch one byte at a time, and `http_parser_execute` with its marks and bulk body reads |
| `HttpInvariant`, `HttpHeard`, `HttpSplit`, `HttpOrder` | what every reachable state satisfies; what a user hears with the pieces of a text joined; independence of how the input is cut; order of the callbacks |
| `HttpGrammar`, `HttpHeaders`, `HttpLine`, `HttpRequestLine`, `HttpMessage`, `HttpRoundTrip` | the character tables against the grammars of the standards, the incremental matcher against whole strings, and printing and parsing of requests (RFC 2616, sections 2.2, 3.6.1, 4.4, 5 and 8.1; RFC 3986, section 3) |
| `HttpExactly`, `HttpRequestExactly` | the other direction: what the parser accepts is what can be printed, line by line |
| `HttpLimits` | where the parser does less than a caller may expect, and exactly when |
| `CrcTable`, `Crc32` | the table-driven CRC-32 of RFC 1952, section 8, on 32-bit registers |
| `SoStdio` | the buffered stream `SO_FILE` against a plain byte sequence with a cursor |
| `HashMap`, `HashTable` | the linear-probing map of the preprocessor, slot by slot and as an object, against a finite map |
| `Conditionals`, `ConditionalMeaning`, `ConditionalLimits` | the recursive line loops `ifelse` and `ifdef` against the evaluation of a tree of conditionals |
| `HandOff` | two threads handing a turn to each other with a mutex, a condition variable and two flags |
| `Frames` | length-prefixed messages over a fragmenting stream, the command parser behind them, and the server that answers the commands |
| `HexDump` | the bounded hex and ASCII dump of one line |

In the HTTP model a byte is a `char`; characters from 128 on are treated as bytes of that value where the tables tell
them apart. A call is described by the callbacks it makes. `Undefined` stands for a failed assertion, a string read past
its end, or a negative length after a cast. Of the six marks only the URL's is kept apart: the parser's state determines
which of the other five is set, and two are never set together. What a user hears of calls are their callbacks with
adjacent pieces of one text joined; an empty text, as the value of a header, is a callback like any other.

Where the code and its documentation disagree the model follows the code:

- `content_length` is taken to be negative when no length was given, and such requests to end with their head
  (assignments/5-aws/util/http-parser/http_parser.c:1421-1433); but it is a `size_t` that is set to -1, so those lines are
  never reached and the request waits for 2^64 - 1 bytes (`HttpLimits.LengthlessSwallows`).
- The table of hex digits (assignments/5-aws/util/http-parser/http_parser.c:145-155) lists half of its entries; the
  others are zero, not -1, so bytes from 128 on count as the digit 0 in a chunk size.
- The comment on the token table (assignments/5-aws/util/http-parser/http_parser.c:105-109) excludes space, quote, slash
  and closing brace; the table has them, so a header name may contain and end with spaces (`HttpGrammar.TokenTable`).
- RFC 2616, section 4.2, puts a colon behind every header name, and section 5.1.1 lists the methods; the code also takes
  a name alone for a header line (`HttpExactly.LineExactly`), and almost any word of the right length that begins like
  one of CONNECT, COPY, MKCOL and MKACTIVITY for that method (`HttpRequestExactly.PathSpells`).
- `nread` bounds the header (assignments/5-aws/util/http-parser/http_parser.c:379-386) only within one call
  (`HttpLimits.LimitDependsOnCut`; `HttpSplit.CutsAgree` says exactly when that matters).
- RFC 3986, section 3.4, lets a query begin with a question mark; the code takes those, and hashes in front of a fragment,
  for more delimiters and skips them (assignments/5-aws/util/http-parser/http_parser.c:787-929): `/p??x` gives the query
  `x` (`HttpRequestLine.PartsExactly`).
- so_fread past the end of a file (assignments/2-stdio/checker-lin/libso_stdio.c:204-225) reads on at the byte count, not at
  the cursor: asked for more than is left but no more than the file has, it never returns (`SoStdio.ReadExactly`).
- get_command asks whether a client has connected through a pointer that is null until it has
  (hackathon/skel/server/server.c:177), so the reply "authentication required" is never given (`Frames.SurvivesExactly`).
- The name of the unsubscribe operation is spelled `unsubcribe` (hackathon/skel/utils.c:34), on both ends.
- The dump promises the converted line; a buffer of exactly its size loses the last ASCII character
  (labs/lab01/skel/lin/2-lib/hexdump.c:140).

## Model

| member | source | states |
|---|---|---|
| HttpRun.RunAppend | assignments/5-aws/util/http-parser/http_parser.c:385-386 | parsing a text is parsing its beginning and then its end from where that stopped, unless the beginning already failed, left or faulted |
| HttpRun.BulkIsBytewise | assignments/5-aws/util/http-parser/http_parser.c:1439-1450 | inside a body, handing k bytes to on_body at once and jumping over them is the same run as consuming them one at a time, for every k up to the remaining length |
| HttpRun.MarkByte | assignments/5-aws/util/http-parser/http_parser.c:31-64 | after any byte the marks, as positions in the call's buffer, delimit exactly the texts of the open spans, and the callbacks cut out of the buffer for cleared marks are those of the bytewise run |
| HttpRun.MarkBulk | assignments/5-aws/util/http-parser/http_parser.c:1439-1450 | a bulk body read keeps the marks and reports the same body text as the bytewise run, split at the call only |
| HttpRun.Scan | assignments/5-aws/util/http-parser/http_parser.c:321-1578 | the loop of http_parser_execute, with marks, bulk body reads in both body states and early returns, computes for every parser state and nonempty buffer the parser, the callbacks and the byte count of the bytewise run |
| HttpRun.HttpParser.constructor | assignments/5-aws/util/http-parser/http_parser.c:1608-1617 | a new request parser is between messages with no flags and a zero counter |
| HttpRun.HttpParser.Execute | assignments/5-aws/util/http-parser/http_parser.c:321-1578 | one call: which fields are stored on success, on error, on upgrade and for an empty buffer, index and nread cut to a byte, and the callbacks appended in order |
| HttpInvariant.FieldInv | assignments/5-aws/util/http-parser/http_parser.c:1073-1200 | in a header name the matcher keeps its index inside the word and the unknown-state assertion is unreachable |
| HttpInvariant.ValueInv | assignments/5-aws/util/http-parser/http_parser.c:1265-1340 | in a header value the matcher keeps its index inside the word and its assertion is unreachable |
| HttpInvariant.MethodInv | assignments/5-aws/util/http-parser/http_parser.c:608-647 | a method name is read past its terminator exactly for the two lenient methods after a word one letter too long |
| HttpInvariant.ChunkSizeInv | assignments/5-aws/util/http-parser/http_parser.c:1461-1522 | the chunk assertions hold: chunk states carry F_CHUNKED and a chunk size starts with the counter at one |
| HttpInvariant.BodyInv | assignments/5-aws/util/http-parser/http_parser.c:1439-1553 | body states have bytes left; a chunk body is undefined exactly when its size is 2^63 or more |
| HttpInvariant.StepInv | assignments/5-aws/util/http-parser/http_parser.c:379-1557 | every byte from every state keeps the invariant, and a step is undefined if and only if it is one of the two undefended places |
| HttpInvariant.RunInv | assignments/5-aws/util/http-parser/http_parser.c:321-1578 | the invariant holds after every run, failed ones included |
| HttpInvariant.RunDefined | assignments/5-aws/util/http-parser/http_parser.c:321-1578 | a run over any input is undefined if and only if some prefix of it leads to an undefended place and the next byte goes there |
| HttpHeard.LagStep | assignments/5-aws/util/http-parser/http_parser.c:31-64 | two runs over the same bytes, of which one was cut into calls, differ only by the beginning of the open text that the cuts have already delivered; every byte that both take keeps it so |
| HttpSplit.LagEnds | assignments/5-aws/util/http-parser/http_parser.c:31-64 | when both calls end, both users have heard the same: pieces of a text join to the text, empty ones included |
| HttpSplit.StepSame | assignments/5-aws/util/http-parser/http_parser.c:379-386 | two parsers that differ in lost multiples of 256 of the counter react alike to every byte below the header limit |
| HttpSplit.RunSame | assignments/5-aws/util/http-parser/http_parser.c:379-386 | the same over whole runs, with bytes above the limit that the switch refuses anyway: same end, same position, and the same callbacks but for where the texts are cut; at a failure the cut run has delivered at most a piece of text, or a message begun, more |
| HttpSplit.ReachableInv | assignments/5-aws/util/http-parser/http_parser.c:1561-1573 | a new request parser, whatever the memory held, satisfies the invariant, and so does the parser that any history of calls of Execute leaves, failed calls included; its counter is always narrowed |
| HttpSplit.HistoryInv | assignments/5-aws/util/http-parser/http_parser.c:1561-1578 | every history of calls, failed ones included, that neither upgrades nor meets an undefended place keeps the invariant and the narrowed counter |
| HttpSplit.CutAnywhere | assignments/5-aws/util/http-parser/http_parser.c:362-377 | unless the header limit stops the run over all of it, calls on any pieces of an input amount to that run: state, what is heard, position of a failure or an upgrade |
| HttpSplit.SplitIndependence | assignments/5-aws/util/http-parser/http_parser.c:362-377 | from every state satisfying the invariant, one call on an input and calls on any nonempty pieces of it end with the identical parser and are heard alike, callback by callback with the pieces of each text joined and empty texts kept; or leave for an upgrade at the same byte, heard alike; or fail at the same byte, the pieces having delivered at most one text or a message begun more; unless the header limit stops the single call |
| HttpSplit.LimitCut | assignments/5-aws/util/http-parser/http_parser.c:379-386 | where the limit, and not the switch, stops a single call at byte k, that call fails at k, while two calls cut at k do not: the counter narrows to nothing between them |
| HttpSplit.CutsAgree | assignments/5-aws/util/http-parser/http_parser.c:1570-1571 | for every parser between calls and every input: all cuts into nonempty pieces end as the single call does, in this sense, if and only if the header limit does not stop the single call at a byte that the switch would take |
| HttpSplit.ShortBelowLimit | assignments/5-aws/util/http-parser/http_parser.c:379-386 | the header limit is out of reach of any input no longer than what the counter leaves of it |
| HttpSplit.Once | assignments/5-aws/util/http-parser/http_parser.c:321-1578 | one call of Execute put as a step of such a session, and the parser that it leaves when it succeeds or fails |
| HttpSplit.Feed | assignments/5-aws/util/http-parser/http_parser.c:321-1578 | a client that feeds the pieces one by one gets exactly the session that split independence is about |
| HttpOrder.StepPhase | assignments/5-aws/util/http-parser/http_parser.c:388-1557 | every byte makes only callbacks that the message's phase allows, and moves to a phase that fits the new state |
| HttpOrder.RunInOrder | assignments/5-aws/util/http-parser/http_parser.c:321-1578 | the same for runs, whether they end well, fail or leave |
| HttpOrder.CallInOrder | assignments/5-aws/util/http-parser/http_parser.c:1561-1578 | the same for one call and the fields it stores, however it ends |
| HttpOrder.CallbackOrder | assignments/5-aws/util/http-parser/http_parser.c:314-319 | in every history of calls, failed ones included, with the fields that Execute stores after each, the callbacks are a prefix of repeated: begin, URL parts, headers, headers complete, body, trailers, complete |
| HttpOrder.Drive | assignments/5-aws/util/http-parser/http_parser.c:321-1578 | a client that goes on calling Execute, after failures too, hears exactly that history, in that order |
| HttpOrder.LastDies | assignments/5-aws/util/http-parser/http_parser.c:1365-1450 | a step that completes a message leaves the parser between messages if keep-alive holds and dead if not |
| HttpOrder.DeadHistory | assignments/5-aws/util/http-parser/http_parser.c:390-394 | a dead parser makes no callback in any number of calls |
| HttpOrder.SilentAfterLast | assignments/5-aws/util/http-parser/http_parser.c:390-394 | once a message completes without keep-alive nothing is pending, the rest of the buffer fails at its first byte, and no later call makes any callback |
| HttpGrammar.TokenTable | assignments/5-aws/util/http-parser/http_parser.c:108-143 | the table of header name characters holds exactly the token characters of RFC 2616, section 2.2, with letters lower-cased and the others kept, and besides them the space, the double quote, the slash and the closing brace |
| HttpGrammar.UrlTable | assignments/5-aws/util/http-parser/http_parser.c:158-195 | the table of URL characters holds exactly those that a path may have by RFC 3986, section 3.3, and the eleven other visible characters that neither end a path nor a query |
| HttpGrammar.SizeTable | assignments/5-aws/util/http-parser/http_parser.c:145-155 | hexadecimal digits of either case have their values, bytes from 128 on count as zero, and no other byte is a digit |
| HttpHeaders.MatchRest | assignments/5-aws/util/http-parser/http_parser.c:1100-1172 | from the middle of a word the incremental matcher ends in its recognised state if and only if the rest of the word follows, in any case, with only spaces behind |
| HttpHeaders.NameMatched | assignments/5-aws/util/http-parser/http_parser.c:1026-1177 | for every token the matcher's verdict is connection, content-length, transfer-encoding or upgrade exactly when whole-string comparison says so |
| HttpHeaders.ValueMatched | assignments/5-aws/util/http-parser/http_parser.c:1202-1338 | for every value, chunked, keep-alive and close are recognised exactly when whole-string comparison says so under the right name |
| HttpLine.LineRun | assignments/5-aws/util/http-parser/http_parser.c:1026-1363 | any header line whose name has name characters only, with any gap and either line end, makes exactly its two callbacks and changes flags and length as comparing whole strings in any letter case gives it |
| HttpExactly.BareRun | assignments/5-aws/util/http-parser/http_parser.c:1187-1199 | a name without a colon is taken for a header line: its callback is made and nothing else changes |
| HttpExactly.LineExactly | assignments/5-aws/util/http-parser/http_parser.c:1026-1363 | the parser reads a line of a header to its end if and only if it is a printed header line or a bare name |
| HttpRequestLine.MethodRun | assignments/5-aws/util/http-parser/http_parser.c:574-647 | each of the 23 method names followed by a space is recognised as that method, and so is every word that passes for one |
| HttpRequestExactly.PathSpells | assignments/5-aws/util/http-parser/http_parser.c:574-647 | no other words lead to a method: the names, and for CONNECT, COPY, MKCOL and MKACTIVITY words of their length with the letters that decide |
| HttpRequestExactly.StartRefused | assignments/5-aws/util/http-parser/http_parser.c:574-605 | a message that no method begins is refused at its first byte, behind message_begin, and what is stored then |
| HttpRequestLine.UrlRun | assignments/5-aws/util/http-parser/http_parser.c:649-929 | any path, and any absolute URL or authority with or without port and path, with any query and fragment of URL characters, is delivered in its parts and as a whole; question marks in front of the query and hashes in front of the fragment are skipped |
| HttpRequestLine.MarkedRun | assignments/5-aws/util/http-parser/http_parser.c:787-929 | behind its delimiter a query or a fragment is delivered without the further delimiters in front of it, and is not delivered if nothing else is there |
| HttpRequestLine.PartsExactly | assignments/5-aws/util/http-parser/http_parser.c:649-929 | the whole URL and its path come back as printed; query and fragment do if and only if the query does not begin with a question mark nor the fragment with a hash |
| HttpRequestLine.DecRead | assignments/5-aws/util/http-parser/http_parser.c:964-1017 | a printed decimal number is read back |
| HttpRequestLine.DecGood | assignments/5-aws/util/http-parser/http_parser.c:964-1017 | and every one up to 999 is a version number |
| HttpRequestLine.VersionRun | assignments/5-aws/util/http-parser/http_parser.c:931-1024 | any version up to 999.999, with zeros in front of the minor number or not, is read, with either line end |
| HttpRequestLine.RequestLineRun | assignments/5-aws/util/http-parser/http_parser.c:574-1024 | any printed request line, behind any line ends, with any spaces between its parts, with a version or as HTTP/0.9, is parsed to its method, URL parts and version |
| HttpRequestLine.LeadRun | assignments/5-aws/util/http-parser/http_parser.c:574-583 | any mixture of carriage returns and line feeds in front of a request is skipped |
| HttpRequestExactly.RequestLineExactly | assignments/5-aws/util/http-parser/http_parser.c:574-1024 | the parser reads a request line to its end if and only if it is one that can be printed: some good lead, method word, target and version have it as their text |
| HttpMessage.LinesRun | assignments/5-aws/util/http-parser/http_parser.c:1026-1363 | any list of header lines makes exactly their callbacks in order and their combined effect |
| HttpMessage.FlagsMean | assignments/5-aws/util/http-parser/http_parser.c:1280-1363 | after any header lines a flag is set if and only if some line announces it, and the length is that of the last Content-Length line |
| HttpMessage.BodyRun | assignments/5-aws/util/http-parser/http_parser.c:1439-1450 | a body of the announced length is delivered whole and completes the message once |
| HttpMessage.SizeRun | assignments/5-aws/util/http-parser/http_parser.c:1461-1495 | a chunk size in digits of either case, with zeros in front or not, is read modulo 2^64 |
| HttpMessage.HexRead | assignments/5-aws/util/http-parser/http_parser.c:1461-1495 | a printed chunk size is read back |
| HttpExactly.SizeLineExactly | assignments/5-aws/util/http-parser/http_parser.c:1461-1522 | between chunks the parser reads a line if and only if it is a size with an extension or without |
| HttpMessage.ChunkRun | assignments/5-aws/util/http-parser/http_parser.c:1461-1553 | one chunk, with any extension, delivers its data and returns to the next size |
| HttpMessage.ChunksRun | assignments/5-aws/util/http-parser/http_parser.c:1461-1553 | any list of chunks delivers their data in order |
| HttpRoundTrip.RequestRoundTrip | assignments/5-aws/util/http-parser/http_parser.c:574-1553 | printing any well-formed request with a body by length or by chunks (trailers, extensions, either line end) and parsing it makes exactly the callbacks of its parts and one completion, and leaves the parser ready or dead as keep-alive decides |
| HttpRoundTrip.BodyConserved | assignments/5-aws/util/http-parser/http_parser.c:1439-1553 | the texts given to on_body join to the body: its bytes, or its chunks concatenated |
| HttpRoundTrip.PersistsExactly | assignments/5-aws/util/http-parser/http_parser.c:1581-1598 | from HTTP/1.1 on the connection persists if and only if no header or trailer line says close, and before, or with a minor version of zero, if and only if one says keep-alive |
| HttpRoundTrip.FreshIsReady | assignments/5-aws/util/http-parser/http_parser.c:1608-1617 | a new parser can take such requests, whatever its memory held |
| HttpRoundTrip.RequestHeard | assignments/5-aws/util/http-parser/http_parser.c:31-64 | what is heard of the callbacks of a request, with pieces joined, are the parts of its URL, each header name with its value, empty ones included, and the body as one text; and the URL as a whole |
| HttpRoundTrip.PipelineRoundTrip | assignments/5-aws/util/http-parser/http_parser.c:1581-1598 | any sequence of requests on one connection is parsed one after the other |
| HttpRoundTrip.PipelineAnyCut | assignments/5-aws/util/http-parser/http_parser.c:321-1578 | when the bytes of any sequence of requests are cut into calls anywhere, every request is heard whole and in order: the parts of its URL and the URL, each header name with its value, the body, and one completion |
| HttpRoundTrip.ParsePrinted | assignments/5-aws/util/http-parser/http_parser.c:321-1578 | one call of Execute on printed requests makes exactly their callbacks and reads every byte |
| HttpLimits.LengthAnnounced | assignments/5-aws/util/http-parser/http_parser.c:1290-1298 | a printed Content-Length line announces its number and nothing else |
| HttpLimits.SizedIsGood | assignments/5-aws/util/http-parser/http_parser.c:1290-1298 | every body can be sent by length, so the round trip speaks of all bodies |
| HttpLimits.ChunkedIsGood | assignments/5-aws/util/http-parser/http_parser.c:1461-1553 | every list of chunks can be sent |
| HttpLimits.PrintedChunkIsGood | assignments/5-aws/util/http-parser/http_parser.c:1461-1553 | any data that is not empty and is shorter than 2^63 bytes can be such a chunk |
| HttpLimits.UpgradeExits | assignments/5-aws/util/http-parser/http_parser.c:1365-1408 | a request for an upgrade or a tunnel ends with its head: both completions are called, the parser leaves at the last line feed of the head, and nothing behind it is read |
| HttpLimits.CompletesAtBlank | assignments/5-aws/util/http-parser/http_parser.c:1413-1437 | after any request head the blank line completes the message if and only if a length of zero and no chunks were announced |
| HttpLimits.LengthlessSwallows | assignments/5-aws/util/http-parser/http_parser.c:1421-1433 | a request without a length never completes: the length stays at 2^64 - 1 and everything after the head is delivered as its body |
| HttpLimits.LimitDependsOnCut | assignments/5-aws/util/http-parser/http_parser.c:1570-1571 | an input for which cuts disagree: 81921 line ends fail in one call and pass in two, since the counter is cut to a byte between calls |
| HttpLimits.LenientFaults | assignments/5-aws/util/http-parser/http_parser.c:615-625 | a nine-letter word beginning like CONNECT reads past the end of the method name |
| HttpLimits.HugeChunkFaults | assignments/5-aws/util/http-parser/http_parser.c:1524-1529 | every chunk size of 2^63 or more reaches the cast to a signed type |
| HttpLimits.HugeSize | assignments/5-aws/util/http-parser/http_parser.c:1461-1529 | and such a size can be sent: 2^63 in sixteen digits |
| Crc32.ShiftLinear | labs/lab02/sol/win/2-crc/crc32.c:86-89 | a bit step is linear over exclusive or |
| Crc32.TableCorrect | labs/lab02/sol/win/2-crc/crc32.c:30-82 | each of the 256 table entries is eight bit steps of its index |
| Crc32.Do1Correct | labs/lab02/sol/win/2-crc/crc32.c:86-89 | one table look-up is eight bit steps with the polynomial 0xEDB88320 |
| Crc32.Do2 | labs/lab02/sol/win/2-crc/crc32.c:90-93 | two bytes of the bit-at-a-time register |
| Crc32.Do4 | labs/lab02/sol/win/2-crc/crc32.c:94-97 | four bytes of it |
| Crc32.Do8 | labs/lab02/sol/win/2-crc/crc32.c:98-101 | eight bytes of it |
| Crc32.UpdateCrc | labs/lab02/sol/win/2-crc/crc32.c:108-124 | the loop unrolled by eight computes the bit-at-a-time CRC for every buffer, length and starting value, and zero for no buffer |
| Crc32.CrcAppend | labs/lab02/sol/win/2-crc/crc32.c:108-124 | the checksum can be computed piece by piece |
| Crc32.GenerateCrc | labs/lab02/sol/win/2-crc/crc.c:72-90 | whatever the sizes of the reads, the loop computes the checksum of the whole file |
| Crc32.CrcAffine | labs/lab02/sol/win/2-crc/crc32.c:108-124 | for messages of one length the CRC is affine over exclusive or |
| Crc32.FoldInjective | labs/lab02/sol/win/2-crc/crc32.c:108-124 | reading on never merges two registers |
| Crc32.BurstDetected | labs/lab02/sol/win/2-crc/crc32.c:108-124 | two messages that differ only inside four consecutive bytes never have the same CRC |
| Crc32.UnseenExactly | labs/lab02/sol/win/2-crc/crc32.c:108-124 | two messages that differ in one part of equal length have the same CRC if and only if the exclusive or of the two parts leaves an empty register empty |
| Crc32.FiveBytesUnseen | labs/lab02/sol/win/2-crc/crc32.c:108-124 | a change inside five consecutive bytes goes unseen if and only if its last four bytes are its first byte shifted through the register |
| Crc32.BitBurstDetected | labs/lab02/sol/win/2-crc/crc32.c:108-124 | two messages that differ only inside 32 consecutive bits, wherever these begin, never have the same CRC, whatever the starting value |
| Crc32.GeneratorMissed | labs/lab02/sol/win/2-crc/crc32.c:108-124 | 32 is the most: the generator polynomial as a change of 33 consecutive bits goes unseen at any byte of any message and from every starting value |
| Crc32.Residue | labs/lab02/sol/win/2-crc/crc32.c:108-124 | any message with its checksum behind it, least significant byte first, has the checksum 0x2144DF1C, from any starting value: the register is inverted before and after |
| Crc32.CheckValue | labs/lab02/sol/win/2-crc/crc32.c:108-124 | the digits from 1 to 9 have the checksum 0xCBF43926 |
| SoStdio.OverlayAt | assignments/2-stdio/checker-lin/libso_stdio.c:86-112 | writing at an offset keeps every other byte and fills a gap with zeros |
| SoStdio.SoFile.constructor | assignments/2-stdio/checker-lin/libso_stdio.c:19-61 | a fresh stream shows the file with the cursor at its start |
| SoStdio.SoFile.Flush | assignments/2-stdio/checker-lin/libso_stdio.c:86-112 | with writes of any positive size, the whole buffer reaches the file at the descriptor's offset; a sound stream stays sound, the same plain file and with the same place for the next put if and only if the buffer holds no read bytes; the contents stay if and only if it was writing or the bytes are there already |
| SoStdio.SoFile.Load | assignments/2-stdio/checker-lin/libso_stdio.c:114-156 | the buffer holds the chunk of the file that it says, or a get in that chunk is one at the end of the file |
| SoStdio.SoFile.GetC | assignments/2-stdio/checker-lin/libso_stdio.c:114-156 | returns the byte of the plain file at the cursor and moves on, or the end-of-file mark; exactly when the end-of-file and error indicators change; where a put may follow |
| SoStdio.SoFile.PutC | assignments/2-stdio/checker-lin/libso_stdio.c:247-271 | from any state the byte is laid over the contents where the descriptor and the pending bytes are, with at most 4095 bytes pending; it is the put of a plain file if that is the cursor |
| SoStdio.PutLandsExactly | assignments/2-stdio/checker-lin/libso_stdio.c:247-271 | a put agrees with the plain file for every byte if and only if it lands at the cursor |
| SoStdio.PutAllowed | assignments/2-stdio/checker-lin/libso_stdio.c:247-271 | it does after a seek, after a put, and after a get that met the end of the file, which is where section 7.21.5.3 of ISO C11 lets output follow input |
| SoStdio.TellReturns | assignments/2-stdio/checker-lin/libso_stdio.c:158-192 | a position that so_ftell gave is sought back to successfully after any legal sequence of operations, with the contents that the sequence left |
| SoStdio.SoFile.Seek | assignments/2-stdio/checker-lin/libso_stdio.c:158-187 | succeeds if and only if the target is in range; a failed seek has moved the cursor: the stream is still sound, so that gets answer as a plain file, if and only if the target is not negative, and a put goes on where it would have, not at the cursor; the end-of-file indicator stays |
| SoStdio.SeekFrom | assignments/2-stdio/checker-lin/libso_stdio.c:158-192 | in the words of the three origins: the range in which a seek succeeds, and the position told after it against the one told before, the size and the end of the contents |
| SoStdio.SeekMeans | assignments/2-stdio/checker-lin/libso_stdio.c:158-187 | the same of the plain file that sequences of operations are compared with |
| SoStdio.Append | assignments/2-stdio/checker-lin/libso_stdio.c:158-271 | a seek to the end of a file of exact size tells its length; a get there meets the end of the file, and a put then appends |
| SoStdio.SoFile.Write | assignments/2-stdio/checker-lin/libso_stdio.c:234-245 | puts all the bytes where the next put lands and reports the number of items, whatever fails |
| SoStdio.SoFile.ReadBytes | assignments/2-stdio/checker-lin/libso_stdio.c:194-232 | stores the bytes from the cursor on and touches nothing else of the caller's buffer; past the end of the file it goes on at the offset equal to the number of bytes it has; exactly when the loop ends |
| SoStdio.SoFile.Read | assignments/2-stdio/checker-lin/libso_stdio.c:194-232 | the number of items so_fread returns, or nothing if it never returns, the bytes stored, and the cursor |
| SoStdio.ReadExactly | assignments/2-stdio/checker-lin/libso_stdio.c:194-232 | so_fread returns and counts the bytes that the file still had if and only if it starts at the beginning, stays inside the file, asks for nothing or reads an empty file |
| SoStdio.WholeGot | assignments/2-stdio/checker-lin/libso_stdio.c:194-232 | such a read stores exactly the bytes from the cursor on |
| SoStdio.SoFile.GoRound | assignments/2-stdio/checker-lin/libso_stdio.c:204-225 | with one byte left to be had and a file longer than what it has, every further round of so_fread changes neither the stream nor the caller's buffer |
| SoStdio.SoFile.Close | assignments/2-stdio/checker-lin/libso_stdio.c:68-84 | nothing stays behind in the buffer |
| SoStdio.WriteSeekRead | assignments/2-stdio/checker-lin/libso_stdio.c:194-271 | bytes written to a new stream are read back after a seek to the start, as many as asked for or all of them |
| SoStdio.Replay | assignments/2-stdio/checker-lin/libso_stdio.c:86-271 | every interleaving of put, get, seek, flush and tell in which puts land at the cursor and flushes find no read bytes gives the answers of a plain byte sequence with a cursor and leaves its contents |
| SoStdio.SizeExact | assignments/2-stdio/checker-lin/libso_stdio.c:267-267 | size stays the length of the contents through a put if and only if the put appends |
| SoStdio.FlushAfterRead | assignments/2-stdio/checker-lin/libso_stdio.c:86-112 | flushing a stream that has just read a small file doubles the file |
| HashMap.HashFunc | assignments/1-multi/hashmap.c:27-35 | the byte sum of the key modulo the size |
| HashMap.HashParts | assignments/1-multi/hashmap.c:27-35 | the hash of a key is the sum of those of its parts modulo the size, in any order, so that keys with the same bytes in another order collide |
| HashMap.ProbeEnds | assignments/1-multi/hashmap.c:70-97 | with an empty slot anywhere, probing for any key ends before it has gone round |
| HashMap.StoreRefines | assignments/1-multi/hashmap.c:68-97 | storing keeps every key where its probe ends and changes the finite map at one key only |
| HashMap.RemovedGone | assignments/1-multi/hashmap.c:116-137 | after a deletion the key is not found |
| HashMap.RemoveExactly | assignments/1-multi/hashmap.c:116-137 | another key is found as before if and only if it was not stored or its probe path avoids the freed slot |
| HashMap.RemoveProbed | assignments/1-multi/hashmap.c:116-137 | every stored key stays reachable if and only if no stored key's path crosses the freed slot |
| HashMap.Resurrected | assignments/1-multi/hashmap.c:50-137 | two keys with one hash in any empty table: a deleted key comes back with its first value after an insert, a delete and an insert of the other |
| HashTable.Refilled | assignments/1-multi/hashmap.c:55-66 | refilling a table of twice the size keeps it roomy all along, so no insert of a resize resizes again |
| HashTable.InsertRefines | assignments/1-multi/hashmap.c:50-98 | an insert, with or without a resize, changes the finite map at its key only |
| HashTable.InsertedFound | assignments/1-multi/hashmap.c:50-137 | even in a table with unreachable keys, a key just inserted is found and a key just deleted is not |
| HashTable.DeleteRefines | assignments/1-multi/hashmap.c:116-137 | a delete whose slot no other probe path crosses removes the key from the map; any other delete loses another key |
| HashTable.MapExactly | assignments/1-multi/hashmap.c:50-137 | over any history of inserts, deletes and queries the table finds every key as the finite map does, after every command, if and only if every delete was harmless where it happened |
| HashTable.Table.constructor | assignments/1-multi/hashmap.c:7-25 | a new table of any size is the empty state; it is sound if and only if it has more than four slots |
| HashTable.LastSlotTaken | assignments/1-multi/hashmap.c:55-97 | the insert that takes the last slot passes the resize check if and only if the table has four slots or fewer; then no empty slot is left |
| HashTable.Table.Find | assignments/1-multi/hashmap.c:104-113 | the probe loop stops, at the place the specification gives |
| HashTable.Table.Get | assignments/1-multi/hashmap.c:100-114 | the value found, or nothing |
| HashTable.Table.DeleteKey | assignments/1-multi/hashmap.c:116-137 | the whole new state: a hole at the key, the count as it was; occupied slots stay within the count |
| HashTable.Table.Insert | assignments/1-multi/hashmap.c:50-98 | the whole new state, across a resize: slots and count |
| HashTable.Table.StoreAt | assignments/1-multi/hashmap.c:68-97 | the slot where probing ends takes the pair; only a new slot is counted |
| HashTable.Table.Rehash | assignments/1-multi/hashmap.c:55-66 | the table of twice the size is the refilled one |
| HashTable.RunAll | assignments/1-multi/hashmap.c:50-137 | any history from any sound state: slots, count and every answer; every probe ends, since occupied slots never exceed the count nor the count the size |
| HashTable.RunFresh | assignments/1-multi/hashmap.c:50-137 | from a table of six slots, a history without deletes, or with harmless ones, is answered like a finite map |
| HandOff.StepKeeps | labs/recap/skel/06-addrspc/addrspc.c:21-64 | every step of either thread keeps the invariant |
| HandOff.SpuriousKeeps | labs/recap/skel/06-addrspc/addrspc.c:27-29 | so does a wakeup for no reason |
| HandOff.ReachableInv | labs/recap/skel/06-addrspc/addrspc.c:21-64 | the invariant holds after every interleaving |
| HandOff.MutualExclusion | labs/recap/skel/06-addrspc/addrspc.c:32-36 | the two threads are never in their running sections together |
| HandOff.StrictAlternation | labs/recap/skel/06-addrspc/addrspc.c:25-63 | the runs strictly alternate, thread one first |
| HandOff.NoDeadlock | labs/recap/skel/06-addrspc/addrspc.c:25-63 | in every reachable state some thread can go on without a spurious wakeup |
| HandOff.NoLostWakeup | labs/recap/skel/06-addrspc/addrspc.c:36-40 | a thread that sleeps although its flag is set is about to be signalled by the other, which can go on |
| HandOff.BoundedIdling | labs/recap/skel/06-addrspc/addrspc.c:25-63 | between two runs the machine takes a bounded number of steps, plus four for each spurious wakeup |
| HandOff.RunsKeepComing | labs/recap/skel/06-addrspc/addrspc.c:25-63 | from every reachable state a run begins within eighteen steps without spurious wakeups |
| Conditionals.Preprocessor.RunIfElse | assignments/1-multi/helper.c:207-276 | the loops of ifelse in its three modes, with their recursive calls, compute the line-by-line function |
| Conditionals.Preprocessor.RunIfDef | assignments/1-multi/helper.c:278-375 | the loops of ifdef in both modes compute the line-by-line function |
| ConditionalMeaning.TakeIfElse | assignments/1-multi/helper.c:254-273 | lines without conditionals in a taken branch of ifelse: definitions are obeyed, other lines written unless blank |
| ConditionalMeaning.ChooseArm | assignments/1-multi/helper.c:228-253 | before any branch was taken, exactly the first branch whose test holds is evaluated |
| ConditionalMeaning.ChainRun | assignments/1-multi/helper.c:207-276 | a whole #if chain is consumed exactly and does what evaluating it gives |
| ConditionalMeaning.ChainWrites | assignments/1-multi/helper.c:207-276 | a flat chain writes exactly the lines of its first true branch that neither begin with #define nor with a newline |
| ConditionalMeaning.KindExactly | assignments/1-multi/helper.c:228-344 | what a line is taken for is decided by exactly the word it begins with |
| ConditionalMeaning.IfDefWrites | assignments/1-multi/helper.c:278-375 | #ifdef takes its first part if and only if its name is defined, #ifndef if and only if it is not; of the part that is taken #define, #undef and #include act on the table, the last writes what it expands to, and every other line is written unless it begins with a newline |
| ConditionalMeaning.BlockRun | assignments/1-multi/helper.c:278-375 | a nested conditional with no conditional in an untaken part is consumed exactly, and output and macro table are those of its evaluation |
| ConditionalMeaning.TakenRun | assignments/1-multi/helper.c:305-373 | the same for any list of lines and conditionals in a taken branch |
| ConditionalLimits.IfElseUses | assignments/1-multi/helper.c:207-276 | a call of ifelse uses up at most one #endif more than the opening lines it read, less those it passed over |
| ConditionalLimits.IfDefUses | assignments/1-multi/helper.c:278-375 | so does a call of ifdef, nested calls included |
| ConditionalLimits.BlockMisses | assignments/1-multi/helper.c:292-304 | a conditional in an untaken part or inside a chain is always passed over |
| ConditionalLimits.BlockExactly | assignments/1-multi/helper.c:278-375 | a conditional is consumed exactly, no line more or less, if and only if no conditional lies in an untaken part or inside a chain |
| ConditionalLimits.NestedEndsEarly | assignments/1-multi/helper.c:292-304 | in the failing case the nested #endif ends the outer branch and the lines after it are read as if outside |
| Frames.GetOp | hackathon/skel/utils.c:39-47 | finds the entry of a code |
| Frames.GetOpByStr | hackathon/skel/utils.c:49-60 | finds the entry whose name is the string, and the unknown one if and only if there is none |
| Frames.XSend | hackathon/skel/utils.c:62-79 | however the transfers are cut, all bytes are sent in order, or a failure is reported and a prefix was sent |
| Frames.LengthOfHeader | hackathon/skel/utils.c:81-91 | the length read from a header is the length it was made of, modulo 2^32 |
| Frames.SendData | hackathon/skel/utils.c:81-91 | header and message are appended to the stream |
| Frames.XRecv | hackathon/skel/utils.c:93-112 | fills the buffer with the next bytes of the stream, fewer only at its end, and touches nothing behind them |
| Frames.RecvData | hackathon/skel/utils.c:114-131 | takes one message off the stream; a length beyond the buffer is refused with the message still unread; a stream shorter than a header is never a message |
| Frames.ParseCommand | hackathon/skel/server/server.c:119-139 | splits at the first space, looks the word up, and lowers the length by the word and the space only if there is one |
| Frames.ParsesBack | hackathon/skel/server/server.c:119-139 | every sendable command is recovered from its text: operation, payload, payload length |
| Frames.Terminated | hackathon/skel/server/server.c:164-171 | a message leaves a C string in the zeroed buffer if and only if it is shorter than the buffer or has a NUL of its own |
| Frames.Receive | hackathon/skel/server/server.c:164-171 | for any stream: no message is made of its end, of an empty message or of a length beyond the buffer; a message that fills the buffer without a NUL is read past its end; any other is parsed up to its first NUL |
| Frames.CutShort | hackathon/skel/utils.c:93-131 | a message that the end of the stream cuts short is taken for what has arrived of it, and then carried out like a whole one |
| Frames.SentUnderstood | hackathon/skel/server/server.c:164-171 | every command that a client sends is taken off the stream and understood as it was meant |
| Frames.Server.AddClient | hackathon/skel/server/server.c:52-81 | a known service is found again, a new one takes a free place, and none is taken when all twenty are |
| Frames.Server.Execute | hackathon/skel/server/server.c:172-226 | the length check, the check for a connection with its null pointer, the check of the argument over the announced length with the terminator as an invalid character, and the reply, in this order |
| Frames.FailedExactly | hackathon/skel/server/server.c:172-226 | a response begins with "FAILED: " if and only if the command was over 256 bytes, had an invalid argument, was unknown, or named a new service when there were twenty; the cause, or else the reply of the operation |
| Frames.Sample | hackathon/skel/utils.c:81-91 | a short conversation byte by byte: lengths in four bytes, the most significant first, and the two replies |
| Frames.Server.GetCommand | hackathon/skel/server/server.c:152-236 | for any stream: one message is received, carried out and answered by one padded line; the connection ends exactly without a message or a working socket; the server is lost exactly where the checks read through a null pointer or the text has no end |
| Frames.SurvivesExactly | hackathon/skel/server/server.c:177-196 | a new client's commands are all answered if and only if those before its first successful connection are connections or too long, and no connection or subscription that is not too long lacks its name |
| Frames.LostClient | hackathon/skel/server/server.c:177-180 | a client that asks for statistics before it connects gets no answer |
| Frames.UnknownAnswered | hackathon/skel/server/server.c:212-226 | an unknown command is refused and changes nothing, before a connection as well |
| Frames.SendCommands | hackathon/skel/liblogmemcache/logmemcache.c:32-39 | a client's commands make the stream of their frames |
| Frames.Server.Serve | hackathon/skel/server/lin/server_os.c:28-32 | the loop over one client receives and answers the commands in order, up to the one that the server does not survive; after a failed transfer a prefix of them |
| Frames.Converse | hackathon/skel/utils.c:62-131 | end to end: for any sequence of commands and any fragmentation on both sides, the commands arrive and their responses come back in order, up to the one that the server does not survive |
| HexDump.GroupDecodes | labs/lab01/skel/lin/2-lib/hexdump.c:92-95 | the digits of a little-endian word of any width stand for its bytes |
| HexDump.GroupsDecode | labs/lab01/skel/lin/2-lib/hexdump.c:87-134 | the hex part decodes to the bytes it was made of, for every group size |
| HexDump.Scnprintf | labs/lab01/skel/lin/2-lib/hexdump.c:33-42 | writes what fits, terminates it, and returns what it wrote |
| HexDump.DumpGroups | labs/lab01/skel/lin/2-lib/hexdump.c:88-120 | the loops for groups of 8, 4 and 2 leave the hex part cut at the buffer's end |
| HexDump.DumpBytes | labs/lab01/skel/lin/2-lib/hexdump.c:122-130 | the loop for single bytes leaves whole bytes only |
| HexDump.AddAscii | labs/lab01/skel/lin/2-lib/hexdump.c:138-142 | padding to the ASCII column and the characters that fit |
| HexDump.HexDumpToBuffer | labs/lab01/skel/lin/2-lib/hexdump.c:68-145 | for every length, row size, group size and buffer of at least one byte: the text, its terminator inside the buffer, and nothing changed behind it |
| HexDump.HexFits | labs/lab01/skel/lin/2-lib/hexdump.c:87-134 | without ASCII any buffer holds a prefix of the hex part, and all of it if and only if it has room for the terminator |
| HexDump.BytesUncut | labs/lab01/skel/lin/2-lib/hexdump.c:122-130 | in any buffer the single-byte hex part decodes to a prefix of the data |
| HexDump.LineFits | labs/lab01/skel/lin/2-lib/hexdump.c:138-142 | with ASCII the line is complete if and only if the buffer has one byte more than text and terminator need; a buffer of the exact size loses the last character |
| HexDump.LineIsReadable | labs/lab01/skel/lin/2-lib/hexdump.c:68-145 | in a large enough buffer the groups of 2, 4 or 8 bytes that were asked for, if they come out even, else single bytes, decode to the bytes shown; single spaces part them and fill the line up to the stated column, and from there on every letter, digit, punctuation mark and space stands for itself and every other byte is a dot |

## Left out

- HttpRun.HttpParser.Execute: says nothing about the fields after an undefined step; the source has no meaning there.
- Frames.Server.GetCommand: the operations behind it, other than connecting, are stubs in the source that return 0. Nothing is claimed about a client whose command lost the server.
- SoStdio.SoFile.ReadBytes: only on disks whose calls succeed, like so_fread.
- SoStdio.SoFile.Read: its I/O failures are not modelled, and after a read past the end that does return the soundness of the stream is not claimed.
- SoStdio.SoFile.GetC: needs a cursor that is not negative, which a failed seek may leave; the source would index before its buffer.
- SoStdio.Replay: legal sequences only. What an illegal put or flush does is in the contracts of `SoStdio.SoFile.PutC` and `SoStdio.SoFile.Flush`, with `SoStdio.FlushAfterRead` as an example; sequences that go on after one are not followed.
- HTTP responses and the start state for both directions, bodies that end with the connection (unreachable in a request parser), and the test of the empty buffer in that state.
- Callbacks that return errors or ask to skip the body; every callback returns 0. An upgraded connection ends the model at the point of exit.
- Opening files in append mode, `so_popen`, `so_pclose`, `so_feof` and `so_ferror`: foreign calls or plain reads of a field. Reads of regular files are assumed to fill the chunk.
- Overflow of `int` in `hashFunc` and of `cnt * 4`, `malloc` failure and `free` in the hash map.
- In the conditionals the macro table is a parameter: any tests, definitions and inclusions may be put in. `#include` is one step that may write lines and change the table; definitions over several lines and the splitting of lines longer than the read buffer are not modelled, nor is `parseFile`, whose text replacement is not part of this model.
- HandOff: modelled on values, one step for each statement; the flags are read and written atomically, and the counting loop and the output of a thread are one step.
- Sockets that fail may deliver any prefix; a failed transfer is not retried, as in the source.
- A message of 2^32 bytes or more is framed with its length cut, as `Frames.SendData` states; the receiver takes it for what that length says.
- Writing the checksum to a file and comparing files (labs/lab02/sol/win/2-crc/crc.c:24-41, 118-215).
- The ELF and PE loaders, hooks, kernel module, pipes, signals, timers and Win32 calls: foreign layouts and effects with shallow loops.
