# Proofs about MCP-Win32s

A Dafny model of the device program's text, command, serial and memory code and of
the bridge's admission control, with proofs of what that code is for. `dafny verify
dfyconfig.toml` checks all of it.

| files | component |
|---|---|
| `Text`, `Utf16`, `Utf8`, `CodecLaws`, `CodecOrder` | the UTF-8 / UTF-16 codec: truncation, well-formedness, round trips, the order of characters |
| `CodePages`, `CodePageLaws`, `TableGenerator` | single- and double-byte code pages, from the generator's rows to the round trips |
| `WireText` | any source text to UTF-8 through a 512-unit window; narrowing a path |
| `Argv`, `CommandLine` | quoting for `CommandLineToArgvW` and for `cmd.exe`, each with its reader |
| `Chip`, `Uart`, `UartOpen` | the 16550 driver over a seam seen twice: by a bus of any behaviour and by an honest chip |
| `UartLine`, `UartLaws` | its transmit and receive on the honest chip as functions, and which breaks and overruns come through, over whole sessions |
| `RateLimiter`, `Breaker`, `Dispatch` | token buckets, the circuit-breaker, and the concurrent calls that go through both |
| `Base64` | the encoder and the decoder with its wrapping 32-bit accumulator |
| `Digits`, `MemGuards`, `MemTable`, `MemAccess` | 32-bit parsing and range guards, the retained-process table, peek and poke |
| `JsonText`, `JsonCommand`, `JsonReader`, `Framing`, `Response` | JSON strings, the command parser, line framing, responses |
| `CatalogGrammar`, `CatalogScanner`, `CatalogLaws`, `CatalogRoundTrip`, `CatalogArgs` | the catalogue's recursive-descent scanner against a JSON printer; argument validation |

## How it is built

A routine of the source that works step by step is a method, a loop or a class with
the source's fields; its contract equates what it computes with a function of its
input, and the laws are proved about these functions. Output buffers are arrays, and
a contract says of the whole buffer what it holds afterwards: `Overwrite(buf, at,
text)` is the buffer with `text` stored and nothing else changed. Where only part of
a buffer may be touched, `Confined` says so.

A NUL-terminated string is the sequence of its characters before the NUL. Integers
are unbounded except where the source's width matters; there the width is a type
(`u32`, `byte`, `unit`), which makes every intermediate a proof obligation, or the
wrap is written out (`% 0x1_0000_0000`). Shifts and masks are division and remainder
by powers of two. Clocks, replies of the operating system, what a chip answers and
the order in which concurrent calls move are parameters that a law quantifies over.

Standards: Table 3-7 and the maximal-subpart practice of section 3.9 of the Unicode
Standard; sections 3 and 4 of RFC 3629; section 2 of RFC 2781; sections 4 and 10 of RFC 4648.

## Where the code differs from what is said of it

- `EncBytesToWire` takes the whole rest as one window when 512 continuation bytes
  stand in a row, and its unit buffer then cuts the text. `WireText.WindowedIsOneShot`
  says exactly when the windows lose something.
- `EncOpenPath` on the code-page tier forgets that widening was cut: a path of more
  than 259 units is narrowed to its front with an OK status, as every longer ASCII
  path is on a page that maps ASCII (`WireText.NarrowThenRender`,
  `WireText.LongPathIsCut`). Its own overflow branch is never taken, and its lossy
  status never given (`WireText.NarrowIsShort`, `WireText.IllFormedIsRejected`).
- A bucket of the rate limiter is never full between calls, so its window bound is
  the capacity and one for each interval begun, and that is attained. A refill that
  finds 2^32 intervals or more loses the high bits of the advance; at exactly 2^32
  the limiter admits everything (`RateLimiter.StuckRefillAdmitsAll`).
- A break is dropped only if the first look at its status is the receive loop's own,
  because a look clears its flag. The look after a filled buffer and the polls of a
  transmit are looks too: a break that waits behind a filled buffer, or through a
  transmit, is delivered as a zero byte. `UartLaws.BreaksDropped` says exactly which
  call delivers one, `UartLaws.BreakAfterFullBuffer` and `UartLaws.BreakAfterSend` show
  both ways, and `UartLaws.SafeConversationDropsAllBreaks` says how a caller avoids them.
- An overrun is counted only if a look that finds a character reports it. Without a
  FIFO, one that falls between the look at a character and its taking is reported by a
  look that finds nothing; and the look after a filled buffer is not decoded
  (`UartLaws.OverrunsCounted`, `UartLaws.FifoOverrunsCounted`, `UartLaws.OverrunUnseen`).
- The end of a memory region is computed in 32 bits, so a region that reaches 4 GB
  counts as empty (`MemGuards.ReachOfTouchable`).
- On the pre-NT tiers an empty poke is let through where an empty peek is refused
  (`MemAccess.EmptyAccess`).
- A token is fresh for 2^32 spawns and no longer: the next may be given a token that
  was released (`MemTable.RunKeepsInv`, `MemTable.TokensRepeat`).
- The Base64 decoder ignores everything after the first padding sign, and drops a
  lone `A` at the end (`Base64.NothingAfterPadding`, `Base64.LoneLetter`).
- A JSON string with a control character outside the five short escapes does not
  come back from the device's own reader (`JsonText.UnescapeOfEscape`), and an
  integer above 2147483639 is read as a smaller one (`JsonCommand.AccumulatedIsExact`).
- A response whose escaped value is too long goes out with an empty value and its
  status unchanged (`Response.LongValueIsDropped`).
- An option that takes an argument consuming the next token never changes the
  verdict of `CatalogValidateArgs`.

## Model

| member | source | states |
|---|---|---|
| `Utf16.ReadUnits` | src/encoding.c:44-71 | takes one scalar value from the front: a unit, a surrogate pair (numbered as CodecOrder pins it), or U+FFFD for an unpaired surrogate, with the units used and whether it was lossy |
| `Utf16.PutScalar` | src/encoding.c:90-109 | stores the one to four bytes of a scalar value and nothing else |
| `Utf16.Utf16ToUtf8` | src/encoding.c:33-116 | writes exactly the bytes of the characters that fit the capacity and leaves the rest of the buffer alone; the status is truncated iff the whole encoding is too long, otherwise lossy iff a surrogate is unpaired |
| `Utf16.Written16IsEncodeOfFit` | src/encoding.c:44-110 | what is written under a capacity is the encoding of a prefix of the units that splits no surrogate pair |
| `Utf16.FitIsLongest` | src/encoding.c:73-109 | no longer prefix that splits no pair would have fitted |
| `Utf16.SplitPairWouldFit` | src/encoding.c:84-88 | the least input that shows why the boundary is asked for: a pair whose first half alone would have fitted as a substitution |
| `Utf16.LongerPrefixFits` | src/encoding.c:73-109 | a longer prefix, boundaries aside, would fit iff a surrogate pair comes next and three bytes of room are left |
| `Utf16.CleanIsWellFormed16` | src/encoding.c:48-71 | the encoder notices nothing lossy iff no surrogate is unpaired |
| `Utf16.EncodeJoins` | src/encoding.c:33-116 | encoding distributes over any cut that does not fall between the halves of a pair |
| `Utf8.ReadBytes` | src/encoding.c:140-252 | reads one step of the decoder: its units (pairs as CodecOrder pins them), bytes used and lossiness |
| `Utf8.PutUnits` | src/encoding.c:232-250 | stores one unit or a pair and nothing else |
| `Utf8.Utf8ToUtf16` | src/encoding.c:130-258 | writes exactly the units of the characters that fit and leaves the rest of the buffer alone; truncated iff the whole decode is too long, otherwise lossy iff the bytes are ill-formed |
| `Utf8.StepFollowsTable` | src/encoding.c:140-252 | each step takes a well-formed sequence of Table 3-7 and gives its scalar value, and where none begins it takes one maximal subpart and gives one U+FFFD |
| `Utf8.CleanIsWellFormed8` | src/encoding.c:140-252 | the decoder notices nothing lossy iff the bytes are well-formed UTF-8 |
| `Utf8.Written8IsDecodeOfFit` | src/encoding.c:140-258 | what is written under a capacity is the decode of a prefix that ends on a character |
| `Utf8.Fit8IsLongest` | src/encoding.c:140-258 | no longer such prefix would have fitted |
| `Utf8.Fit8Complete` | src/encoding.c:238-258 | everything is read iff everything fits |
| `CodecLaws.DecodeJoins` | src/encoding.c:130-258 | decoding, and being clean, distribute over every cut before a byte that is no continuation byte, whatever the bytes |
| `CodecLaws.ScalarIsUnique` | src/encoding.c:90-109 | two scalar values never have the same bytes |
| `CodecLaws.DecodeOfEncode` | src/encoding.c:33-258 | decoding the encoding of units gives them back iff they are well-formed UTF-16 |
| `CodecLaws.EncodeOfDecode` | src/encoding.c:33-258 | every decode is well-formed UTF-16, and encoding the decode of clean bytes gives them back |
| `CodecLaws.EncodeOfDecodeIff` | src/encoding.c:33-258 | encoding the decode of bytes gives them back iff they are well-formed UTF-8 |
| `CodecLaws.SanitizeOnce` | src/encoding.c:33-258 | decoding and encoding any bytes gives well-formed UTF-8 with the same decode, and doing it again changes nothing |
| `CodecLaws.TruncatedEncode` | src/encoding.c:44-116 | a truncated encoding is well-formed UTF-8 and a prefix of the whole one, equal to it iff that fits |
| `CodecLaws.TruncatedDecode` | src/encoding.c:140-258 | a truncated decode is well-formed UTF-16, so no pair is split, and is whole iff it fits |
| `CodecLaws.Written8IsPrefix` | src/encoding.c:140-258 | a truncated decode is a prefix of the whole one |
| `CodecOrder.PairsInOrder` | src/encoding.c:51-57 | of two surrogate pairs the one with the lower high half, or else the lower low half, is read as the lower code point, and no other: the numbering of section 2 of RFC 2781 |
| `CodecOrder.EndsOfPairs` | src/encoding.c:51-57 | the first pair is U+10000 and the last U+10FFFF |
| `CodecOrder.UnitsInOrder` | src/encoding.c:240-250 | code points beyond the first 2^16 are written as pairs in the order of the code points |
| `CodecOrder.BytesInOrder` | src/encoding.c:76-109 | UTF-8 keeps the order of code points, byte by byte |
| `CodecOrder.PairsEncodeInOrder` | src/encoding.c:33-116 | pairs in order are encoded as byte sequences in order, and these decode in order |
| `CodecOrder.GrinningFace` | src/encoding.c:33-258 | U+1F600 by its two units and its four bytes, in both directions |
| `CodecOrder.Substitution` | src/encoding.c:58-67 | an unpaired surrogate is written EF BF BD, and a byte that leads nothing is read as U+FFFD |
| `CodePages.CpDecode` | src/charset_tables.c:33-100 | stores the units of the bytes taken under the capacity; lossy iff U+FFFD is among them; consumed is where a later call must go on |
| `CodePages.DecodeResumes` | src/charset_tables.c:59-100 | a decode cut by its capacity and resumed at consumed gives the whole decode |
| `CodePages.DecoderResynchronises` | src/charset_tables.c:63-87 | an undefined pair, or a lead byte at the end, gives one U+FFFD for one byte and the trail byte is read again; a defined pair takes both bytes |
| `CodePages.SinglesAreUnits` | src/charset_tables.c:88-95 | a byte that is no lead is one unit, U+FFFD if undefined |
| `CodePages.RevLookup` | src/charset_tables.c:104-126 | the binary search finds the canonical sequence of a unit, or -1 when the page has none |
| `CodePages.NarrowStops` | src/charset_tables.c:145-156 | the front that is encoded ends at the first unit the page cannot represent |
| `CodePages.CpEncode` | src/charset_tables.c:128-173 | -2 if the representable front overflows, otherwise -1 and the index of the first unrepresentable unit, otherwise all the bytes stored and nothing else changed |
| `CodePages.CpRepresentable` | src/charset_tables.c:175-190 | true iff the strict encoder meets no unrepresentable unit |
| `CodePageLaws.CanonicalIsLowest` | src/charset_tables.c:104-126 | on a sound page the canonical sequence of a decoded unit is defined, decodes to the same unit, and is not above any other that does |
| `CodePageLaws.DecodeOfNarrow` | src/charset_tables.c:33-173 | decoding what the encoder writes gives the encoded units back, without loss |
| `CodePageLaws.KeysSpell` | src/charset_tables.c:59-100 | a decode without loss cuts the bytes into defined sequences, one to a unit |
| `CodePageLaws.NarrowIsLowest` | src/charset_tables.c:128-173 | the encoder writes the lowest sequence of each unit |
| `CodePageLaws.NarrowOfDecodeStops` | src/charset_tables.c:128-173 | encoding a decode rejects exactly at its first U+FFFD, and nowhere if there is none |
| `CodePageLaws.NarrowOfDecode` | src/charset_tables.c:33-173 | encoding a decode without loss replaces each sequence by the lowest with the same unit, is never longer, decodes to the same text and is idempotent |
| `TableGenerator.Page.SetSingle` | tools/gen_charset_tables.py:76-81 | defines or leaves undefined one single byte; the page stays consistent |
| `TableGenerator.Page.SetLead` | tools/gen_charset_tables.py:83-86 | adds a lead byte and keeps every mapping |
| `TableGenerator.Page.SetDouble` | tools/gen_charset_tables.py:88-96 | defines or leaves undefined one double byte and adds its lead |
| `TableGenerator.BuildPage` | tools/gen_charset_tables.py:99-113 | for rows with distinct keys the page holds exactly their mappings and leads; it fails iff a double byte lies below 0x8100 |
| `TableGenerator.BuildDerived` | tools/gen_charset_tables.py:116-132 | the derived page holds the base mappings with the one override |
| `TableGenerator.GroupByUnit` | tools/gen_charset_tables.py:141-142 | groups the byte sequences by the unit they map to, none lost and none added |
| `TableGenerator.LowestOf` | tools/gen_charset_tables.py:145-146 | the least of a group |
| `TableGenerator.BuildReverse` | tools/gen_charset_tables.py:135-150 | a list sorted by unit that names for every mapped unit its lowest byte sequence, and nothing else |
| `TableGenerator.Flatten` | tools/gen_charset_tables.py:213-218 | each lead row is found whole at its row number in the flat table |
| `TableGenerator.Emit` | tools/gen_charset_tables.py:208-251 | the emitted tables are sound and mean exactly the mappings of the page |
| `TableGenerator.Generate` | tools/gen_charset_tables.py:65-150 | from rows in which no byte is both lead and single: tables that define exactly the mapped rows with their units, and on which all the round-trip laws hold; with no row that maps to a surrogate, also the laws of rendering |
| `TableGenerator.NoClashInTables` | tools/gen_charset_tables.py:99-113 | what is asked of the rows makes no lead byte a mapped single byte |
| `WireText.FindPage` | src/charset_tables.c:17-26 | the baked page of that number, or none |
| `WireText.TakeWindow` | src/encoding.c:487-504 | the window backs off to a byte that is no continuation, or takes the whole rest when there is none |
| `WireText.ReadWindow` | src/encoding.c:483-532 | one pass: the units of the next window of any source, the bytes it used (at least one) and its lossiness |
| `WireText.EncBytesToWire` | src/encoding.c:465-549 | for the codec, a baked page or an unknown page: the output is what fits of the encoding of all the windows' units, and the status is truncated iff that is too long, otherwise lossy iff the source is |
| `WireText.WindowedIsOneShot` | src/encoding.c:487-508 | the windowed decode equals the one-shot decode iff no window overflows the unit buffer, and then their lossiness agrees too |
| `WireText.NoLongRunNoOverflow` | src/encoding.c:490-501 | no window overflows unless 512 continuation bytes stand in a row |
| `WireText.OverflowLosesText` | src/encoding.c:496-501 | more than 512 stray continuation bytes do overflow, and exactly 512 substitutions are left of them |
| `WireText.SourcesAre` | src/encoding.c:479-532 | page 65001 goes through the codec, a baked page through its tables, and any other number as Latin-1 |
| `WireText.UnknownPageIsLatin1` | src/encoding.c:521-532 | bytes of an unknown page are the code points of the same numbers, without loss |
| `WireText.CodecWireIsOneShot` | src/encoding.c:465-549 | what goes on the wire from UTF-8 is the one-shot sanitised text iff nothing overflows |
| `WireText.WireIsWellFormed` | src/encoding.c:465-549 | for every source and capacity the output is well-formed UTF-8 within the capacity, overflow or not |
| `WireText.WrittenJoins` | src/encoding.c:534-542 | encoding window after window under the room that is left is encoding all the units under the whole capacity |
| `WireText.EncOpenPath` | src/encoding.c:414-462 | code-page tier: status, reject index and terminated bytes of the narrowed path; the buffer never overflows |
| `WireText.NarrowIsShort` | src/encoding.c:442-450 | narrowing at most doubles the length, so the overflow branch is never taken |
| `WireText.KeptUnits` | src/encoding.c:414-440 | of a path that is too long 259 units are kept, or 258 where that would split a pair |
| `WireText.IllFormedIsRejected` | src/encoding.c:414-462 | on every page an ill-formed path that is not cut is rejected, with nothing to open; the lossy status is never given |
| `WireText.NarrowThenRender` | src/encoding.c:414-549 | a well-formed path is rejected at its first unrepresentable unit with empty output, or yields bytes that render back to the units kept of it, and so to the path iff it has at most 259 units |
| `WireText.LongPathIsCut` | src/encoding.c:414-462 | on a page that maps ASCII, every ASCII path of more than 259 bytes is accepted with an OK status, and its first 259 bytes are opened |
| `WireText.ShortestCutPath` | src/encoding.c:414-462 | the shortest one: 260 letters on a page of ASCII alone |
| `Argv.ArgvNeedsQuoting` | src/argv.c:20-35 | true iff the argument is empty or holds a space, a tab, a line feed, a vertical tab or a quote |
| `Argv.ArgvPut` | src/argv.c:41-49 | stores one character iff room is left for the terminator |
| `Argv.ArgvPutRun` | src/argv.c:86-118 | stores a run of one character iff all of it fits |
| `Argv.ArgvEscapeArg` | src/argv.c:51-128 | stores the quoted argument and its terminator, or returns -1 iff they do not fit, touching only its own part of the buffer |
| `Argv.ArgvJoin` | src/argv.c:130-159 | stores the joined command line and its terminator, or returns -1 iff they do not fit |
| `Argv.ReadEscaped` | src/argv.c:51-128 | reading a quoted argument by the argument rules gives the argument and stops before what follows |
| `Argv.TokenizeJoined` | src/argv.c:130-159 | tokenizing the joined line gives back exactly the argument vector, in all three documented dialects of a doubled quote |
| `CommandLine.ArgvCmdEscape` | src/argv.c:161-210 | stores the caret-escaped line and its terminator, or returns -1 iff they do not fit |
| `CommandLine.CmdReadEscaped` | src/argv.c:161-210 | the shell's scanner meets no syntax in an escaped line and gives the line back, however many quotes it holds |
| `CommandLine.EscapeOnlyWhenNeeded` | src/argv.c:161-210 | escaping changes a line iff the shell would not have read it as itself |
| `CommandLine.EscapedCharacters` | src/argv.c:161-210 | outside quotes exactly the eight characters & | < > ^ ( ) % are escaped, and none inside |
| `CommandLine.BuildCommandLine` | src/mcp-w32s.c:359-429 | through a shell, the line is the builtin's shell string of the era or the era's own shell, and behind a space the escaped user part; directly, it is the user part; it is refused iff it is longer than 8192 or 32766, and as invalid arguments iff no buffer of 32768 holds these |
| `CommandLine.LaunchIs` | src/mcp-w32s.c:359-429 | the same of the specification, in words of its own |
| `CommandLine.DirectLinePreservesArgs` | src/mcp-w32s.c:359-429 | a direct launch is tokenized into exactly the requested arguments, less a builtin's own name |
| `CommandLine.ShellLinePreservesArgs` | src/mcp-w32s.c:376-422 | behind the right one of the four shells the scanner passes on a line that is tokenized into exactly the user's arguments, or is the user's own line |
| `Chip.Port.In` | src/uart.h:89-94 | one read through the seam, seen by the bus of any behaviour and by the honest chip at once; no received character is lost track of |
| `Chip.Port.Out` | src/uart.h:89-94 | one write through the seam, seen by both the bus of any behaviour and the honest chip |
| `Uart.Driver.Init` | src/uart.c:113-122 | the driver starts unopened, with single-byte bursts |
| `Uart.Poll` | src/uart.c:378-391 | a bounded poll: at most the bound of reads, and only reads; it fails only after the whole bound of answers without the bit, and ready means the honest chip is |
| `Uart.Burst` | src/uart.c:393-401 | a burst is handed to the transmitter in order; on a ready chip none of it is lost |
| `Uart.UartTxChunk` | src/uart.c:358-404 | len means every byte was sent; -1 means that the whole bound of polls has just shown no room, after a prefix that is a multiple of the chunk; on an honest ready chip exactly these bytes entered the transmitter in order with none lost; the number of reads is bounded for any chip |
| `Uart.AwaitData` | src/uart.c:433-440 | waits without taking a byte, gives up only when its budget of reads is spent, and returns the status that goes with the waiting byte |
| `Uart.TakeChar` | src/uart.c:450-467 | takes one character, and counts an overrun that its status shows, in 32 bits |
| `Uart.Drain` | src/uart.c:442-475 | one pass over a non-empty receiver: the characters not flagged break are stored in order until the buffer is full, the receiver is empty or a break with a framing error comes |
| `Uart.UartRxDrain` | src/uart.c:413-478 | the buffer holds in order the characters taken in this call whose status did not flag a break; a communication error is returned iff the last one showed a break with a framing error, and no other did; zero is never returned; the overrun count grows by the overruns the statuses showed; still waiting means that the budget is spent; on an honest chip the call is the receive that the laws of UartLaws speak of |
| `Uart.SendThenReceive` | src/uart.c:358-478 | a break waits, something is transmitted, and the next receive delivers the break as its first byte |
| `Uart.FillThenReceive` | src/uart.c:413-478 | a buffer of one byte fills in front of a break, and the next receive delivers the break as its first byte |
| `Uart.ReceiveOverOverrun` | src/uart.c:442-470 | without a FIFO, an overrun between the look at a character and its taking leaves the overrun count as it was |
| `UartLaws.ReceiveLaw` | src/uart.c:413-478 | every receive: bytes, result, hard error and overrun count follow from the statuses of the characters taken |
| `UartLaws.BreaksDropped` | src/uart.c:442-470 | which breaks are dropped, for every chip, world and buffer: all, except one that comes first and that an earlier look at the line status has already seen; the call delivers exactly what was sent iff it does not begin with such a break |
| `UartLaws.LookedAtAfter` | src/uart.c:442-470 | what a call leaves looked at for the next one: only a filled buffer does, or a call that took nothing |
| `UartLaws.HardErrorsFail` | src/uart.c:455-470 | a receive fails iff it takes a character that came in as a break with a framing error and is no known one, and then it takes nothing after it |
| `UartLaws.ShortReceivesDropAllBreaks` | src/uart.c:413-478 | a session of receives none of which fills its buffer delivers exactly what was sent, every break dropped |
| `UartLaws.OverrunsCounted` | src/uart.c:442-470 | every overrun that the line status reports during a call is counted, except by a read that finds no character and by the look after a filled buffer: as an equation |
| `UartLaws.FifoOverrunsCounted` | src/uart.c:442-470 | with the FIFO on, all overruns reported during a call are counted iff the look after a filled buffer reports none |
| `UartLaws.ShortReceivesCountAllOverruns` | src/uart.c:413-478 | with the FIFO on, a session of receives none of which fills its buffer counts every overrun that is reported |
| `UartLaws.ConversationIsHonoured` | src/uart.c:358-478 | every session of receives and transmits in any order: the characters that its receives take are those that came in, in order, none twice and none left out; each receive delivers what its own are worth, given whether the first had been looked at, and that happens only behind a full buffer or a transmit |
| `UartLaws.SafeConversationDropsAllBreaks` | src/uart.c:358-478 | a session in which no receive comes behind a full buffer or a transmit without a shorter receive in between delivers exactly what was sent |
| `UartLaws.BreakAfterSend` | src/uart.c:378-391 | for every transmit of at least one byte over a waiting break, the next receive delivers the break as its first byte |
| `UartLaws.BreakAfterFullBuffer` | src/uart.c:442-478 | a receive that fills its one-byte buffer in front of a break, and a second one, which delivers the break |
| `UartLaws.OverrunUnseen` | src/uart.c:442-470 | the chip and the arrivals for which an overrun is reported and not counted |
| `UartLaws.SendsAll` | src/uart.c:358-404 | on a chip whose transmitter keeps shifting, the transmit sends the whole buffer |
| `UartOpen.UartClearStale` | src/uart.c:299-307 | four reads that change no setting |
| `UartOpen.StoreTest` | src/uart.c:155-167 | the latch test sends nothing to the line; whatever the bus, it is passed iff the mask read back 0 after 0x00 and 0xF after 0x0F; an honest chip passes |
| `UartOpen.FifoProbe` | src/uart.c:176-180 | the answer shows a working FIFO iff the chip is a 16550A |
| `UartOpen.ScratchTest` | src/uart.c:182-187 | the scratch register answers iff the chip is not an 8250 |
| `UartOpen.UartDetect` | src/uart.c:141-202 | for any chip: nothing sent, latch closed, interrupts off, at most five reads, present iff the store test was answered, FIFO on iff the probe showed 0xC0; on an honest chip the right kind |
| `UartOpen.UartProgramDivisor` | src/uart.c:208-238 | true iff the latch reads back as the two bytes of the divisor, which is recorded only then |
| `UartOpen.UartLoopbackSelfTest` | src/uart.c:244-293 | for any chip: nothing sent, loopback left again, reads bounded, and passed iff a poll within the bound showed a character, it was 0xAE, and both modem lines came back; an honest idle chip passes |
| `UartOpen.UartOpenSequence` | src/uart.c:314-351 | for every chip: nothing sent to the line, OUT2 never set, at most 100017 reads; live iff the store test, the divisor latch, the poll and the echo were all answered right, and then with the settings, and FIFO on with chunk 16 iff the probe showed 0xC0; on an honest chip live implies ready to send, and an idle one always comes live; the receiver's history is kept in order, and a live chip starts its session with nothing looked at |
| `UartOpen.UartDrainAndClose` | src/uart.c:484-503 | closing waits for an empty transmitter within the bound, sends nothing, drops no accepted byte, keeps the receiver's history in order and leaves interrupts and modem lines off |
| `RateLimiter.RateLimiter.TryAcquire` | bridge/src/ratelimit.rs:81-96 | one call updates the tool's bucket alone, made full on first sight, and admits iff a token is left after refill |
| `RateLimiter.RefillUsesElapsed` | bridge/src/ratelimit.rs:36-48 | a refill leaves less than an interval unaccounted for iff it found fewer than 2^32 intervals |
| `RateLimiter.SpentIsBelowCapacity` | bridge/src/ratelimit.rs:36-48 | between calls no bucket is full and none was refilled in the future |
| `RateLimiter.AdmittedPays` | bridge/src/ratelimit.rs:36-48 | over any run of a bucket in use, every admission is paid for by a token in hand or an interval of the run |
| `RateLimiter.AdmittedSinceCreation` | bridge/src/ratelimit.rs:36-96 | since a bucket's creation the admissions are at most the capacity and one for each whole interval |
| `RateLimiter.AdmittedInWindow` | bridge/src/ratelimit.rs:36-96 | in any window the admissions are at most the capacity and one for each interval begun |
| `RateLimiter.WindowOfLife` | bridge/src/ratelimit.rs:36-96 | the window bound on clock times alone: for a tool whose last call comes within 2^32 intervals of its first, in the window from any call to any later one |
| `RateLimiter.FrontOfLife` | bridge/src/ratelimit.rs:36-96 | the bound since creation on clock times alone |
| `RateLimiter.BurstIsFilled` | bridge/src/ratelimit.rs:36-48 | calls at one instant are admitted up to exactly the tokens in hand and one for each whole interval since the last refill, capped at the capacity |
| `RateLimiter.ConformingIsAdmitted` | bridge/src/ratelimit.rs:36-96 | a tool that in no window makes more calls than the capacity and one for each whole interval is never refused |
| `RateLimiter.WindowBoundIsAttained` | bridge/src/ratelimit.rs:36-96 | the window bound of capacity and intervals begun is reached, for every number of intervals |
| `RateLimiter.CreationBoundIsAttained` | bridge/src/ratelimit.rs:36-96 | the bound since creation is reached, at every whole interval |
| `RateLimiter.ShortRunIsInRange` | bridge/src/ratelimit.rs:42-47 | runs shorter than 2^32 intervals are in the range of the casts |
| `RateLimiter.StuckRefillAdmitsAll` | bridge/src/ratelimit.rs:47 | after exactly 2^32 idle intervals the reference does not move and every call is admitted |
| `RateLimiter.ToolsAreIndependent` | bridge/src/ratelimit.rs:81-96 | a tool is admitted as its own calls alone would be, however other tools' calls are mixed in |
| `Breaker.Breaker.Peek` | bridge/src/breaker.rs:76-87 | the reading says what admit would answer, except while a trial is out |
| `Breaker.Breaker.TryAdmit` | bridge/src/breaker.rs:93-109 | closed admits; open admits one trial after the cooldown and latches it |
| `Breaker.Breaker.RecordSuccess` | bridge/src/breaker.rs:112-116 | closes the breaker |
| `Breaker.Breaker.RecordFailure` | bridge/src/breaker.rs:121-130 | a failed trial trips; otherwise the count goes up, saturating, and trips at the threshold |
| `Breaker.RunKeepsSane` | bridge/src/breaker.rs:93-135 | after any run: open iff the count has reached the threshold, a trial is out only while open, and the opening ends at most a cooldown from now |
| `Breaker.OpenIffThresholdReached` | bridge/src/breaker.rs:112-135 | after any run the breaker is open iff the failures recorded since the last success number at least the threshold |
| `Breaker.TrialsWait` | bridge/src/breaker.rs:93-135 | without a success, the k-th trial of an open breaker comes no earlier than k cooldowns after it was ready, whatever stale failures come in |
| `Breaker.TrialsAreSpaced` | bridge/src/breaker.rs:93-135 | without a success, any two trials are at least a cooldown apart for each step between them |
| `Breaker.LoadAfterTrip` | bridge/src/breaker.rs:93-135 | after a trip at T and without a success at most floor((t - T) / cooldown) calls are admitted by t |
| `Breaker.LoadIsAttained` | bridge/src/breaker.rs:93-135 | a device whose every trial fails is called exactly that often |
| `Breaker.LatchedUntilRecorded` | bridge/src/breaker.rs:98-100 | a trial whose result is never recorded keeps every later call out |
| `Dispatch.Bridge.Perform` | bridge/src/server.rs:319-380 | one locked section of one call: limiter, breaker, device, record or audit |
| `Dispatch.Bridge.Dispatch` | bridge/src/server.rs:319-380 | a whole call with any steps of other calls between its sections is a run of the state machine, and its path is its own sections in order among these steps, as far as its outcome says; it is rate-limited iff the limiter refuses it at its time and stopped by the breaker iff the breaker does |
| `Dispatch.StepKeepsTold` | bridge/src/server.rs:319-380 | every step of any call extends that call's own story by exactly what it does and no other's |
| `Dispatch.EveryRunKeepsInv` | bridge/src/server.rs:319-380 | in every interleaving each call has lived exactly the script of its phase, the device is held by one call, and a latched trial is in flight |
| `Dispatch.FinishedCallIsAccounted` | bridge/src/server.rs:319-380 | a finished call has one audit entry with its outcome if it is a power call and none otherwise; it reached the device once and recorded one result iff the breaker let it through |
| `Dispatch.NeverWedged` | bridge/src/server.rs:319-380 | with no call in flight the breaker lets a trial through once its time has come |
| `Dispatch.StepsRunOut` | bridge/src/server.rs:319-380 | every step brings its call closer to its end |
| `Dispatch.NoDeadlock` | bridge/src/server.rs:335-339 | while a call is unfinished some call can move |
| `Dispatch.RunReplaysBreaker` | bridge/src/server.rs:331-372 | the breaker is where the recorded events alone take it, and its admissions are the calls let through |
| `Dispatch.RunReplaysLimiter` | bridge/src/server.rs:321-328 | the buckets are where the recorded calls alone take them, and a tool's admissions are those let past |
| `Dispatch.RunConserves` | bridge/src/server.rs:331-339 | device calls made and calls waiting at the device are the calls let through |
| `Dispatch.DeviceLoad` | bridge/src/server.rs:319-380 | after a recorded failure opens the breaker at T, and until a success is recorded, the device is called at most by the calls already let through and floor((t - T) / cooldown) more |
| `Dispatch.ToolLoad` | bridge/src/server.rs:319-328 | through any interleaving the calls of one tool let past the limiter keep to the window bound |
| `Dispatch.ToolLoadInUptime` | bridge/src/server.rs:319-328 | the same on clock times alone, for every run that is shorter than 2^32 intervals from the start of the bridge |
| `Dispatch.ConformingToolIsLetPast` | bridge/src/server.rs:319-328 | in every interleaving from the start, a tool whose calls keep to the rate is never refused by the limiter |
| `Dispatch.ToolIsRefilled` | bridge/src/server.rs:319-328 | after any run, calls of a tool at one instant find exactly the tokens that have come back |
| `Base64.Base64Encode` | src/base64.c:40-97 | stores the encoded text and its terminator, or returns 0 and leaves the buffer alone iff they do not fit |
| `Base64.Base64Decode` | src/base64.c:99-178 | stores the bytes and a terminator, which may stand one past the size, or -1 iff the text is faulty, too long or ends in a lone non-zero letter; on -1 the bytes there was room for have been stored |
| `Base64.WrapIsHarmless` | src/base64.c:153-163 | what wraps out of the 32-bit accumulator is never a bit still to be read |
| `Base64.OctetsOfSextets` | src/base64.c:40-178 | regrouping bytes into sextets and back gives the bytes, with no odd bit set |
| `Base64.SextetsOfOctets` | src/base64.c:40-178 | regrouping sextets into bytes and back gives the sextets iff no odd bit is set and no letter stands alone |
| `Base64.DecodeOfEncode` | src/base64.c:40-178 | a text that is an encoding with blanks put in anywhere decodes to the encoded bytes, and is accepted iff they fit |
| `Base64.AcceptedLength` | src/base64.c:130-177 | an accepted text with k letters gives floor(6k / 8) bytes |
| `Base64.BlanksDoNotMatter` | src/base64.c:136-139 | spaces, tabs and line breaks change nothing wherever they stand |
| `Base64.NothingAfterPadding` | src/base64.c:141-145 | what follows a padding sign is never looked at |
| `Base64.EncodeOfDecode` | src/base64.c:40-178 | encoding the decoded bytes writes the same letters iff they left no odd bits |
| `Base64.LoneLetter` | src/base64.c:166-174 | a lone last letter is refused unless it is the zero letter, which is dropped |
| `Base64.EncodedLength` | src/base64.c:57-62 | an encoding is four characters for each three bytes begun |
| `Base64.AlphabetIs` | src/base64.c:10-38 | letter and index are those of table 1 of RFC 4648, place by place |
| `Base64.TestVectors` | src/base64.c:40-97 | three test vectors of section 10 of RFC 4648, one for each length of the last group |
| `Base64.FaultyIs` | src/base64.c:130-150 | a text is at fault iff a foreign character stands in it before any padding sign |
| `MemGuards.MemParseU32` | src/mem_ops.c:44-103 | accepts exactly the decimal and 0x strings of digits whose value is at most 2^32 - 1 and returns that value, with every intermediate in 32 bits |
| `MemGuards.ParseOfDecimal` | src/mem_ops.c:44-103 | the decimal text of a number is read back as the number iff it is at most 4294967295, and refused otherwise |
| `MemGuards.ParseOfHexadecimal` | src/mem_ops.c:44-103 | the same in hexadecimal, in either case and behind either prefix; a prefix alone is refused |
| `MemGuards.MemRangeInBounds` | src/mem_ops.c:110-120 | true iff len is within the cap and addr + len is at most 2^32 - 1 in true integers |
| `MemGuards.MemRegionAccessibleDecision` | src/mem_ops.c:207-254 | the number of bytes offered, with the end of the region wrapping at 32 bits |
| `MemGuards.ReachIsSafe` | src/mem_ops.c:242-253 | every byte offered may be touched, whatever the numbers |
| `MemGuards.ReachIsLongest` | src/mem_ops.c:242-253 | for a region that ends below 4 GB the offer is the longest touchable prefix |
| `MemGuards.ReachOfTouchable` | src/mem_ops.c:242-253 | a touchable first byte is offered iff its region ends below 4 GB: one that reaches 4 GB is wholly refused |
| `MemGuards.WholeIsOffered` | src/mem_ops.c:242-253 | the whole range is offered iff every byte of it may be touched and the region ends below 4 GB |
| `MemGuards.ProtectionsAre` | src/mem_ops.c:207-240 | which protections let a byte be read and written, by their numbers |
| `MemTable.ProcessTable.FindSlot` | src/mem_ops.c:322-335 | the slot in use under a token, or none; the empty token names none |
| `MemTable.ProcessTable.SpawnRetain` | src/mem_ops.c:337-430 | retained iff the command is not empty, catalogued and no builtin, a slot is free, the line is shorter than 32766 and the process runs, and then in the first free slot under a new token; the refusal by the first floor that fails, with nothing changed |
| `MemTable.ProcessTable.Resolve` | src/mem_ops.c:432-448 | handle, process number and command of the slot a token names; 0 and nothing for none |
| `MemTable.ProcessTable.Drop` | src/mem_ops.c:450-475 | release and terminate: iff a slot in use has the token, its handle is closed and it is freed, and nothing else changes |
| `MemTable.ProcessTable.ReleaseAll` | src/mem_ops.c:477-488 | closes every handle that is still held, in slot order, and frees every slot |
| `MemTable.CarriesOnce` | src/mem_ops.c:306-317 | a token carries one serial number only |
| `MemTable.FirstToken` | src/mem_ops.c:298-317 | the token of a first process, character by character |
| `MemTable.RunKeepsInv` | src/mem_ops.c:298-488 | over every run in which at most 2^32 processes are spawned, however long it is: tokens numbered apart, slots backed by what was issued, and every handle obtained either held by a slot in use or closed, as often as obtained |
| `MemTable.RunConserves` | src/mem_ops.c:322-488 | over every run whatever: each handle obtained is held by a slot in use or closed, as often as obtained |
| `MemTable.IssuedOnce` | src/mem_ops.c:306-317 | issued tokens are pairwise distinct |
| `MemTable.DeadStaysDead` | src/mem_ops.c:322-488 | in every such run, a token that names nothing any more never names anything again |
| `MemTable.DroppedIsDead` | src/mem_ops.c:450-475 | a release takes its token out of use at once |
| `MemTable.ResolvesToItsOwn` | src/mem_ops.c:432-436 | a token that resolves gives the process it was issued for |
| `MemTable.SweepClosesAll` | src/mem_ops.c:477-488 | after any run whatever and a sweep, every handle has been closed exactly as often as it was obtained |
| `MemTable.TokensRepeat` | src/mem_ops.c:298-475 | one spawn more is one too many, whatever program an empty table can start: started and released 2^32 times as the same process at the same tick, and once more, it is given its first token again, which by then named nothing and now names the new process |
| `MemAccess.MemDevice.MemPoke` | src/mem_ops.c:591-728 | each of these alone refuses with memory and log unchanged: not armed, out of range, no tier, an empty or unresolved token, no call, a region that does not hold the range writably, a closed sink, a failed call; with none of them the bytes are stored, and it is ok iff that was logged, with one record of address, length and actual bytes |
| `MemAccess.MemDevice.MemPeek` | src/mem_ops.c:495-589 | what is reported as read is what stands there in the memory of the named process or the device, and only the front of the buffer changes; refused on the stated grounds and no other, and short of a region only by what it does not hold |
| `MemAccess.PokeAccounts` | src/mem_ops.c:666-725 | every byte that a logged poke changes lies in its record's range, in the process its token was issued for |
| `MemAccess.AuditCoversWrites` | src/mem_ops.c:591-728 | over every run in which no log write after a store failed, every changed byte is accounted for by a new record, and there are as many new records as successful pokes |
| `MemAccess.UnarmedNeverWrites` | src/mem_ops.c:609-613 | over any run of an unarmed device, or one without a tier, or with the sink closed, memory and log never change |
| `MemAccess.TiersStayApart` | src/mem_ops.c:633-664 | over any run the process tier never changes the device's own memory, and the others never a process's |
| `MemAccess.RecordIs` | src/mem_ops.c:694-720 | what the record of a poke says, on each tier |
| `MemAccess.EmptyAccess` | src/mem_ops.c:495-660 | on the pre-NT tiers an empty poke passes a region where an empty peek is refused |
| `JsonText.JsonEscape` | src/json_parser.c:72-145 | stores the escaped text and its terminator, or returns -1 iff they do not fit |
| `JsonText.JsonUnescape` | src/json_parser.c:27-61 | stores as much of the unescaped text as there is room for, and its terminator |
| `JsonText.UnescapeOfEscape` | src/json_parser.c:27-140 | a string survives escaping and unescaping iff all its control characters have short escapes |
| `JsonText.UnescapedLength` | src/json_parser.c:27-140 | escaped and unescaped, a string never comes back shorter, and longer iff some control character has no short escape |
| `JsonText.EscapedEnds` | src/json_parser.c:72-140 | an escaped string ends at the quote put after it and holds no control character |
| `JsonText.ShortEscapes` | src/json_parser.c:27-140 | the short escapes of both directions, one by one |
| `JsonText.LongEscapes` | src/json_parser.c:120-137 | any other control character is written with four hexadecimal digits, any other character as itself |
| `JsonReader.ReadName` | src/json_parser.c:293-320 | a key and its colon, as the grammar takes them |
| `JsonReader.ReadString` | src/json_parser.c:323-342 | a string up to the quote that ends it, escaped characters passed over |
| `JsonReader.ReadItems` | src/json_parser.c:344-418 | the rest of an array: argv takes strings only, other arrays any scalars |
| `JsonReader.ReadInteger` | src/json_parser.c:419-443 | an integer, accumulated up to the ceiling; a fraction is refused |
| `JsonReader.ReadValue` | src/json_parser.c:322-455 | one value, assigned to the field of its key and kind |
| `JsonReader.ParseJsonCommand` | src/json_parser.c:248-460 | accepts exactly the texts of the grammar, and the command is what the grammar assigns |
| `JsonCommand.KeyBufIs` | src/json_parser.c:150-158 | a key cut at 63 characters is never mistaken for one of the device's own |
| `JsonCommand.AccumulatedIsExact` | src/json_parser.c:432-439 | the accumulator gives a number exactly iff it is at most 2147483639, and something smaller above |
| `JsonCommand.IntegerIsTaken` | src/json_parser.c:419-443 | a printed integer is read back as itself iff it lies within 2147483639 of zero |
| `JsonCommand.ItemsAreTaken` | src/json_parser.c:344-418 | a printed array ends where it was closed, and argv has taken its strings in order |
| `JsonCommand.PairsAreTaken` | src/json_parser.c:269-456 | printed pairs are read as what they mean, in order, whatever unknown fields hold |
| `JsonCommand.ObjectIsTaken` | src/json_parser.c:248-460 | parsing a printed command gives every field its value |
| `JsonCommand.FractionIsRefused` | src/json_parser.c:440-443 | a number with a point is refused |
| `JsonCommand.OpenStringIsRefused` | src/json_parser.c:323-342 | a string that does not end is refused |
| `JsonCommand.NestingIsRefused` | src/json_parser.c:344-418 | no field holds an object, and no array an object or an array |
| `JsonCommand.ArgvHoldsStrings` | src/json_parser.c:395-398 | argv is refused with anything but strings in it |
| `JsonCommand.ValueIsRefused` | src/json_parser.c:322-455 | a command with a refused value is refused |
| `JsonCommand.ArgvLimits` | src/json_parser.c:376-394 | of argv the first 64 strings are kept, and of each the first 511 characters |
| `JsonCommand.LongestTexts` | src/json_parser.c:160-246 | the text fields and how long a text each takes whole |
| `JsonCommand.NumbersAndFlagsAreKept` | src/json_parser.c:207-246 | a printed number is kept under one of six names, a printed flag under one of two, and under no other |
| `Framing.LineBuffer.ProcessBuffer` | src/mcp-w32s.c:804-826 | hands every completed line to the handler, keeps the rest pending, and drops bytes beyond 8191 of a line |
| `Framing.FeedsJoin` | src/mcp-w32s.c:804-826 | feeding two chunks is feeding their concatenation |
| `Framing.CutsDoNotMatter` | src/mcp-w32s.c:804-826 | the lines do not depend on where the input was cut into chunks |
| `Framing.LineComesThrough` | src/mcp-w32s.c:812-823 | a line comes through whole iff it is at most 8191 bytes long, otherwise its first 8191 do |
| `Framing.CommandsSurvive` | src/mcp-w32s.c:804-826 | any list of commands the device can hold, printed one to a line and cut anywhere, is parsed as exactly that list in order |
| `Framing.Serve` | src/mcp-w32s.c:804-826 | buffer and parser together turn such chunks into exactly the sent commands |
| `Response.BuildJsonResponse` | src/json_parser.c:488-534 | the whole response and its terminator, or 0 and an empty string iff it does not fit |
| `Response.SafeAppend` | src/json_parser.c:466-486 | appends all of a string and a terminator, or nothing iff it does not fit |
| `Response.ResponseIsObject` | src/json_parser.c:488-534 | with a plain identifier and status the response is the printed object of its three members |
| `Response.ResponseReadsBack` | src/json_parser.c:488-534 | read by the command grammar, a response with status ok and a key that is one of its text fields gives back its identifier and value; Response.ResponseIsRead is for every other status and key |
| `Response.ResponseIsRead` | src/json_parser.c:488-534 | for every plain status and every key without a quote, the response read back holds its three members in order, with the value unescaped; the value is the one given iff its control characters have short escapes |
| `Response.LongValueIsDropped` | src/json_parser.c:502-507 | the response is that of an empty value iff the escaped value is too long or the value is empty |
| `CatalogScanner.Scanner.ScanText` | src/catalog.c:83-132 | a string, clipped to its buffer, as the grammar takes it |
| `CatalogScanner.Scanner.SkipLiteralHere` | src/catalog.c:211-227 | passes over a literal, which may be nothing |
| `CatalogScanner.Scanner.SkipValueHere` | src/catalog.c:229-242 | passes over one value of any nesting; the mutual recursion ends within the text |
| `CatalogScanner.Scanner.SkipObjectHere` | src/catalog.c:137-175 | passes over one object |
| `CatalogScanner.Scanner.SkipArrayHere` | src/catalog.c:177-206 | passes over one array |
| `CatalogScanner.Scanner.ParseOptionHere` | src/catalog.c:248-301 | one option: its flag, and whether it takes an argument |
| `CatalogScanner.Scanner.ParseOptionsHere` | src/catalog.c:306-343 | the options of an entry, the first sixteen kept |
| `CatalogScanner.Scanner.EntryMemberHere` | src/catalog.c:377-408 | one field of an entry, by its key |
| `CatalogScanner.Scanner.ParseEntryHere` | src/catalog.c:348-421 | one entry |
| `CatalogScanner.Scanner.ParseCommandsHere` | src/catalog.c:426-473 | the entries in order; more than sixty-four is an error |
| `CatalogScanner.Scanner.ParseTopHere` | src/catalog.c:478-522 | the document |
| `CatalogScanner.CatalogLoad` | src/catalog.c:560-627 | loads exactly the texts of the grammar that hold at least one entry |
| `CatalogLaws.TextIsHeard` | src/catalog.c:83-132 | a printed string is scanned up to its closing quote |
| `CatalogLaws.HeardIsExact` | src/catalog.c:83-132 | a printed string is scanned as itself iff all its control characters have short escapes, and otherwise as a longer one |
| `CatalogLaws.ValueIsPassed` | src/catalog.c:137-242 | passing over a JSON value of any nesting, printed with blanks anywhere between its tokens, leaves exactly what follows it |
| `CatalogRoundTrip.DocumentIsRead` | src/catalog.c:478-522 | parsing a document of the right shape, printed with blanks anywhere between its tokens, finds what its tree says, unknown fields and all |
| `CatalogRoundTrip.CatalogComesBack` | src/catalog.c:306-522 | a catalogue the table can hold is printed in any layout, parsed and found again: every name, kind, shell and option, in order |
| `CatalogRoundTrip.FirstOptionsAreKept` | src/catalog.c:306-343 | of any list of options the first sixteen are kept |
| `CatalogRoundTrip.TooManyEntries` | src/catalog.c:426-473 | a catalogue of more than sixty-four entries is refused, in any layout |
| `CatalogRoundTrip.UnknownIsIgnored` | src/catalog.c:404-408 | an unknown field of an entry, of whatever value, changes nothing wherever it stands, and the parser takes it |
| `CatalogRoundTrip.UnknownInOption` | src/catalog.c:279-287 | an unknown field of an option changes nothing wherever it stands, and the parser takes it |
| `CatalogRoundTrip.UnknownAtTop` | src/catalog.c:501-509 | an unknown field beside the commands changes nothing wherever it stands, and the parser takes it |
| `CatalogArgs.CatalogLookup` | src/catalog.c:636-649 | the first entry of that name, case ignored |
| `CatalogArgs.FindOption` | src/catalog.c:665-694 | the first option that is the token, or whose flag with a value glued to it is |
| `CatalogArgs.NamesAgree` | src/catalog.c:636-694 | names are the same iff they differ at most in the case of the letters A to Z |
| `CatalogArgs.GluedValues` | src/catalog.c:665-694 | a flag with a value glued to it is matched iff the option takes an argument |
| `CatalogArgs.LoadedFlagsFit` | src/catalog.c:248-343 | every flag of a catalogue that loads fits its field, so every loaded entry can be checked against |
| `CatalogArgs.CatalogValidateArgs` | src/catalog.c:696-736 | allowed iff every token after the name that looks like a flag is one of the entry's: consuming an argument makes no difference |

## Left out

- Spawning, pipes, threads, job objects, the pseudo console, file operations, TCP and operating-system serial: foreign calls whose behaviour would have to be assumed.
- `src/uart.c` from line 505 on: the port instructions, the port and baud tables and the transport wiring; registers are offsets from the base port.
- The concrete code-page data: the laws hold for every page the generator builds from rows with distinct keys, no byte both lead and single, no row that maps to U+FFFD and, for rendering, none that maps to a surrogate.
- Parsing of the mapping files, the list of undefined positions, the collision report and the text of the generated C file.
- A code page that is not baked in `CpDecode`, `CpEncode` and `EncOpenPath`; the manifest and wide tiers of `EncOpenPath`, which copy.
- NULL pointers, except a NULL token, which is the empty token.
- Text read and written through the same buffer: json_unescape reads from a string of its own.
- The argv[0] rule of `CommandLineToArgvW`, and expansion of `%` by the shell: a percent sign inside quotes is passed on as it is.
- CommandLine.CmdReadEscaped: the shell also ends a command at a line break, even inside quotes; the scanner passes line breaks on.
- CommandLine.ShellLinePreservesArgs: the same, for an argument that holds a line break.
- RateLimiter.AdmittedInWindow: asks that no refill finds 2^32 intervals or more, where the casts make the bound false; RateLimiter.WindowOfLife asks it of the clock times alone.
- RateLimiter.AdmittedSinceCreation: asks the same; RateLimiter.FrontOfLife is on clock times.
- RateLimiter.ConformingIsAdmitted: asks that the last call comes within 2^32 intervals of the first.
- RateLimiter.BurstIsFilled: asks that fewer than 2^32 intervals have passed.
- Dispatch.ConformingToolIsLetPast: asks that the run is shorter than 2^32 intervals.
- Dispatch.ToolIsRefilled: asks that fewer than 2^32 intervals have passed.
- Dispatch.ToolLoad: asks that no refill finds 2^32 intervals or more; Dispatch.ToolLoadInUptime is on clock times.
- Overflow of clock times themselves, which panics in the source.
- Cancelled bridge calls: every call that the breaker lets through is recorded in the end, or is still in flight.
- What a bridge call relays and returns, and the redaction in its audit entry: a call is its tool, its arguments and its outcome.
- Dispatch.Bridge.Dispatch: the wait for the device lock is one gap of other calls' steps; a call that finds the device still held is left waiting.
- Uart.UartRxDrain: the endless wait has a budget, which every poll and every dropped break uses up by one; a call that has spent it is still waiting.
- The honest chip's parity error, and the byte that a chip without a FIFO loses on an overrun: the model drops the new byte, not the unread one. Its two transmitter-empty flags are one.
- MemAccess.MemDevice.MemPoke: a cross-process write that fails outright is taken to have changed nothing, and one that answers is taken to have stored the bytes it reports.
- Base64Encode of more than 1.6 thousand million bytes, where its size computation would overflow.
- The fields that a failed command parse leaves behind, which its callers do not look at.
- Characters above 0x1F whose meaning depends on a DBCS code page, and locale rules of `lstrcmpA` and `lstrcmpiA`: names are equal when their characters are, or when they differ in the case of A to Z.
- Reading the catalogue file, the scanner's error texts, and `CatalogSerializeJson`, which prints fixed pieces and escaped names; the capability report, the ready message and the binary classifier, which format.
- Tool registration, schemas and diagnostics of the bridge, its definition registry and `emit_argv`.
- Validation of line-only exec requests, and the behaviour without a loaded catalogue, where code and documentation disagree.
