# Kiwi: buffer, HTTP client and wikitext, verified

A Dafny model of the parts of this repository whose correctness is hard to see from one body at a time, with proofs of
what they keep over whole runs. `dafny verify dfyconfig.toml` checks all of it.

- `RingBuffer.dfy`, `BufferLines.dfy`: the block list behind QHttp (`QRingBuffer`) refines one plain byte sequence under
  every operation.
- `ChunkedBody.dfy`, `ChunkErrors.dfy`: the incremental decoder for the chunked transfer coding (section 3.6.1 of RFC
  2616), for every message and every way in which its bytes arrive.
- `RequestQueue.dfy`: the request queue of QHttp, with receivers of its signals that call back while one is emitted.
- `DigestChallenge.dfy`, `NtlmMessage.dfy`, `NtlmAnswer.dfy`: reading digest challenges (section 3.2.1 of RFC 2617) and
  writing NTLM authenticate messages (section 2.2.1.3 of MS-NLMP).
- `Markup.dfy`: tags and text as tokens, what it means for them to be well nested, and which tags a text stands in.
- `Quotes.dfy`, `QuoteRules.dfy`, `BlockLevels.dfy`, `BlockItems.dfy`, `WikiTables.dfy`, `TableCells.dfy`,
  `ColonScanner.dfy`, `ColonTags.dfy`, `HeadingLevels.dfy`, `HeadingNumbers.dfy`: the algorithms of the MediaWiki port
  that emit tags or numbers (quotes, lists and paragraphs, tables, definition lists, headings).
- `ElementCursor.dfy`, `ElementText.dfy`, `WikiLists.dfy`, `WikiListText.dfy`, `TocRender.dfy`: Kiwi's own generator:
  the cursor in the document with its stack of names, its table operations, the wiki lists and the table of contents
  built with it, and the text that it keeps.
- `CharStream.dfy`, `ParserMode.dfy`, `TagReader.dfy`, `WrittenTags.dfy`: the character stream, the stack of modes and
  the tag reader that leaves both alone when it fails.
- `Bytes.dfy`, `Dotted.dfy`, `ListPrefix.dfy`, `Wrappers.dfy`: bytes, dotted numbers and their order, the list
  characters in front of a line, optional values.

Objects whose methods change fields are classes here, loops are loops, and every such method is specified by what the
new state is. Signals are entries of a log, arrivals are bytes appended to a socket, output is a sequence of tokens or a
document tree. An exception or a failed assertion is a result that says so.

Where the code does not do what one would expect of it, the code is followed, and the exact condition is proved:

- a trailer line that arrives in pieces is read as body (`ChunkedBody.BodyArrives`);
- `append` and the parameterless `read` of the buffer can leave an empty first block (`RingBuffer.QRingBuffer.Append`,
  `RingBuffer.QRingBuffer.TakeBlock`), as when nothing is appended between two bytes
  (`RingBuffer.QRingBuffer.TakeBeforeEmptyBlock`);
- the offsets of an NTLM message are rounded up, but no padding is written (`NtlmMessage.FaithfulIffPackable`): in OEM
  mode a domain of one letter makes a receiver take the wrong byte for the user (`NtlmMessage.UserIsNotReadBack`);
- a held-back text "0" is taken for empty at the end of a line (`Quotes.DoQuotes`), as in five apostrophes and "0"
  (`Quotes.ZeroIsLost`);
- a single flag for open terms makes a definition list inside of a term close with the wrong tag, also when the term is
  alone on its line (`BlockLevels.BlockParser.DoBlockLevels`);
- what is left open at the end of a text closes as a plain cell, and all tables share the indentation of the one that
  began last (`WikiTables.TableParser.DoTableStuff`): a header or a caption left open, or an unindented table around an
  indented one, is not well nested (`WikiTables.OpenHeaderBreaks`, `WikiTables.OpenCaptionBreaks`,
  `WikiTables.UnalignedBreaks`);
- a row that is begun but stays without cells spares its table the empty row that tables without rows get, so that it
  closes without any (`WikiTables.BegunRowIsNoRow`);
- the scanner for colons returns the place of the colon only when no tag comes before it or one ends right there
  (`ColonScanner.ResultIsColon`), else the start of the text behind the last tag, as for a tag and a letter in front of
  a colon (`ColonScanner.ColonBehindTag`);
- jumping over a level of headings and coming back to it repeats a number (`TocRender.LabelsDifferIffNoGaps`).

## Model

| member | source | states |
|---|---|---|
| RingBuffer.QRingBuffer.Run | src/qhttp/qringbuffer_p.h:62-437 | any sequence of reserve-and-write, putChar, ungetChar, free, chop, truncate, read, getChar, readLine, peek and clear hands out and leaves exactly what the same operations do on one plain byte sequence, and keeps the invariant (first block non-empty unless the buffer is in its reset state) |
| RingBuffer.QRingBuffer.Perform | src/qhttp/qringbuffer_p.h:121-333 | the same for one operation, whatever the block layout |
| RingBuffer.QRingBuffer.Free | src/qhttp/qringbuffer_p.h:121-151 | drops exactly a prefix, across blocks and empty blocks, and terminates |
| RingBuffer.QRingBuffer.Reserve | src/qhttp/qringbuffer_p.h:153-188 | what is reserved are exactly the last positions of the buffer; what was stored stays |
| RingBuffer.QRingBuffer.Chop | src/qhttp/qringbuffer_p.h:195-223 | drops exactly a suffix |
| RingBuffer.QRingBuffer.Truncate | src/qhttp/qringbuffer_p.h:190-193 | keeps exactly a prefix, none of it for a negative position |
| RingBuffer.QRingBuffer.GetChar | src/qhttp/qringbuffer_p.h:229-235 | takes the first byte, or returns -1 from an empty buffer |
| RingBuffer.QRingBuffer.PutChar | src/qhttp/qringbuffer_p.h:237-240 | appends one byte |
| RingBuffer.QRingBuffer.UngetChar | src/qhttp/qringbuffer_p.h:242-252 | prepends one byte, into the room in front or a new block |
| RingBuffer.QRingBuffer.Clear | src/qhttp/qringbuffer_p.h:258-266 | empties the buffer to the state that reserve relies on |
| RingBuffer.QRingBuffer.IndexOf | src/qhttp/qringbuffer_p.h:268-286 | the first occurrence in the sequence, or -1 |
| RingBuffer.QRingBuffer.IndexOfWithin | src/qhttp/qringbuffer_p.h:288-313 | the first occurrence among the first maxLength bytes, or -1 |
| RingBuffer.QRingBuffer.Read | src/qhttp/qringbuffer_p.h:315-327 | fills the array with a prefix of the sequence, leaves the rest of the array alone and removes the prefix |
| RingBuffer.QRingBuffer.ReadLine | src/qhttp/qringbuffer_p.h:414-433 | takes up to and including the first newline, but maxLength - 1 at most, and adds a zero; without a newline it reads like read |
| BufferLines.LineIsTaken | src/qhttp/qringbuffer_p.h:414-433 | a line is handed out whole with its newline if there is room for that and a zero, else up to one byte less than the room; without room nothing is |
| BufferLines.RestIsTaken | src/qhttp/qringbuffer_p.h:414-420 | bytes without a newline fill all the room there is |
| RingBuffer.QRingBuffer.Peek | src/qhttp/qringbuffer_p.h:388-408 | the same prefix that read would give, and nothing changes |
| RingBuffer.QRingBuffer.Append | src/qhttp/qringbuffer_p.h:380-386 | appends; the invariant survives if and only if the buffer was not empty |
| RingBuffer.QRingBuffer.TakeBlock | src/qhttp/qringbuffer_p.h:341-377 | takes what can be read of the first block; the invariant survives if and only if no empty second block with one behind it becomes the first |
| RingBuffer.QRingBuffer.TakeBeforeEmptyBlock | src/qhttp/qringbuffer_p.h:341-386 | after one byte, an append of nothing and an append of one byte it does not survive |
| RingBuffer.LiveSplitsAtFirstBlock | src/qhttp/qringbuffer_p.h:71-75 | the stored sequence seen from its first block |
| RingBuffer.LiveSplitsAtLastBlock | src/qhttp/qringbuffer_p.h:195-223 | the stored sequence seen from its last block |
| RingBuffer.LiveIgnoresFreeSpace | src/qhttp/qringbuffer_p.h:158-172 | resizing the last block adds only what comes into use |
| RingBuffer.FirstIndexInTwo | src/qhttp/qringbuffer_p.h:268-286 | a search goes on in the rest when a block does not have the byte |
| RingBuffer.FirstIndexInTake | src/qhttp/qringbuffer_p.h:288-313 | the same for a limited search |
| ChunkedBody.BodyArrives | src/qhttp/qhttp.cpp:2853-2922 | for every body, division into chunks with extensions, trailer and split into arrivals: the body comes out whole and exactly the message is consumed if and only if no arrival ends inside a trailer line |
| ChunkedBody.ReceiveFollows | src/qhttp/qhttp.cpp:2853-2922 | the same from any place in a message on |
| ChunkedBody.DecodeFollows | src/qhttp/qhttp.cpp:2855-2922 | one call follows the message as far as it has arrived, or has been cut in a trailer line |
| ChunkedBody.ZeroOnlyBehindCrlf | src/qhttp/qhttp.cpp:2888-2921 | after data the size returns to 0 only in a turn that also takes the CRLF |
| ChunkedBody.BodyOnlyGrows | src/qhttp/qhttp.cpp:2899-2908 | what was handed out stays the beginning of what is handed out later |
| ChunkedBody.NothingIsReadOnceDone | src/qhttp/qhttp.cpp:2877-2886 | whatever arrives behind the end of a message stays on the socket for the next one, and the body stays as it is |
| ChunkedBody.SizeLineAnnounces | src/qhttp/qhttp.cpp:2857-2875 | a size line of either case, with or without an extension, announces its number |
| ChunkErrors.BadSizeLineFails | src/qhttp/qhttp.cpp:2857-2872 | a size line that is no hexadecimal number in front of its extension fails, whatever follows |
| ChunkErrors.UnterminatedChunkFails | src/qhttp/qhttp.cpp:2908-2919 | so does a chunk whose data another two bytes follow than CR and LF |
| ChunkedBody.CutTrailerLineBecomesBody | src/qhttp/qhttp.cpp:2877-2906 | a concrete trailer line that arrives in two pieces and is read as body |
| ChunkedBody.ChunkedReply.SlotReadyRead | src/qhttp/qhttp.cpp:2853-2922 | the loop over a buffer of blocks does what the decoder on sequences does |
| ChunkedBody.ChunkedReply.Read | src/qhttp/qhttp.cpp:1862-1884 | reading takes a prefix of what was received; received and read bytes together stay the same |
| ChunkedBody.ChunkedReply.Run | src/qhttp/qhttp.cpp:2853-2975 | over any interleaving of arrivals and reads of any size, the bytes the application has taken and those still stored make up the body that the decoder on sequences has delivered, and the chunk state and the socket agree with it |
| ChunkedBody.ChunkedReply.ReadMessage | src/qhttp/qhttp.cpp:2853-2975 | for a whole message they make up its body, with just the message consumed, if and only if no arrival ends inside a trailer line |
| RequestQueue.HttpQueue.Run | src/qhttp/qhttp.cpp:2355-2540 | over every interleaving of additions, clears, aborts, starts, successes and errors, with receivers calling back from inside any emission (from the signal of a start: adding and clearing), queue and log are exactly those that the events lead to one after the other, the log is as promised, every id stands for one call that added a request, and every request ever added has finished, waits or was dropped by a clear, an abort or an error; in a run without any of these, the ids that have finished and then those that wait are exactly all ids in order |
| RequestQueue.HttpQueue.FinishedWithSuccess | src/qhttp/qhttp.cpp:2490-2518 | the first request finishes first of all. If one of the receivers aborts, nothing more is emitted and nothing is left that was queued before; if none does, the request that finished is removed, and next comes done(false) when no other waits, or the start of the first that does; all that were queued behind it stay, in their order, unless a receiver clears or aborts; all calls of its receivers are carried out |
| RequestQueue.HttpQueue.FinishedWithError | src/qhttp/qhttp.cpp:2520-2540 | the first request is reported failed at once unless it has finished already, done(true) is emitted, no other request that was queued is ever heard of, and whatever waits afterwards was added later |
| RequestQueue.HttpQueue.Abort | src/qhttp/qhttp.cpp:1825-1835 | the same, and at most one request waits afterwards, added by a receiver |
| RequestQueue.HttpQueue.ClearPendingRequests | src/qhttp/qhttp.cpp:1999-2004 | keeps just the first request |
| RequestQueue.HttpQueue.StartNext | src/qhttp/qhttp.cpp:2367-2381 | the first signal is that the request has started; its receivers may add and clear, and without a clear all that waits stays; starting may finish the request at once and start the next, which keeps the promises, and no request comes back |
| RequestQueue.HttpQueue.AddRequest | src/qhttp/qhttp.cpp:2355-2365 | requests queue up in the order of their ids |
| RequestQueue.HttpQueue.Handle | src/qhttp/qhttp.cpp:2503-2508 | a receiver that does not abort leaves the first request in place, and all others too if it does not clear; the error flag is set if and only if done(true) was emitted; of what was queued before, only the first request is heard of, and only as failed; what waits afterwards waited before or is new; adding alone drops nothing |
| RequestQueue.NoneIsLost | src/qhttp/qhttp.cpp:2355-2518 | where no request was dropped, those that finished and then those that wait are all that were ever added, in order |
| RequestQueue.AddsAreQueued | src/qhttp/qhttp.cpp:2355-2365 | calls that add put one unfinished request each behind all others, with the next ids in order |
| RequestQueue.CallsWithoutAbort | src/qhttp/qhttp.cpp:2355-2365 | calls without an abort are all made and none is heard of; the ids grow by the number of additions and the first request stays |
| RequestQueue.ClearLeavesFirst | src/qhttp/qhttp.cpp:1999-2004 | a clear leaves the first request there is, and what is added behind it |
| RequestQueue.AbortExactly | src/qhttp/qhttp.cpp:1825-1835 | an abort whose receivers only add is a failure that leaves the first request added at its end |
| RequestQueue.FailureExactly | src/qhttp/qhttp.cpp:2520-2540 | a failure whose receivers only add says so at once unless the request has finished, then that all is done, and leaves exactly what was added behind that |
| RequestQueue.SuccessExactly | src/qhttp/qhttp.cpp:2490-2518 | a success whose receivers only add starts the next request, be it one that they have added; only when there is none all is done |
| RequestQueue.StartExactly | src/qhttp/qhttp.cpp:2367-2381 | a start is heard of, its receivers add theirs, and what it leads to follows |
| RequestQueue.FinishInOrder | src/qhttp/qhttp.cpp:2495-2503 | requests finish in the order in which they were added, each at most once |
| RequestQueue.GoneAfterError | src/qhttp/qhttp.cpp:2537-2539 | whatever was queued when an error was done with never finishes |
| RequestQueue.ErrorIsDone | src/qhttp/qhttp.cpp:2526-2539 | between a failed request and the next that finishes, done(true) is emitted |
| RequestQueue.DoneBetween | src/qhttp/qhttp.cpp:2526-2539 | when no error is under way, every failed request has been followed by done(true) before any other finished |
| RequestQueue.DoneWhenEmpty | src/qhttp/qhttp.cpp:2513-2514 | done is emitted only when the queue is empty |
| DigestChallenge.RoundTrip | src/qhttp/qhttpauthenticator.cpp:492-555 | printing any options, each in quotes or, where it may be, without, and parsing them gives the same map, with the choice of a protection applied |
| DigestChallenge.RoundTripExactly | src/qhttp/qhttpauthenticator.cpp:492-555 | of options so printed the same come back if and only if no key has an equals sign or a blank in front and the qop entry is missing, empty or "auth" |
| DigestChallenge.ReadKeysAreClean | src/qhttp/qhttpauthenticator.cpp:492-537 | no text at all makes the parser read a key with an equals sign or a blank in front |
| DigestChallenge.ReadEscaped | src/qhttp/qhttpauthenticator.cpp:513-532 | a value with quotes, backslashes and any other characters escaped is read back up to its quote |
| DigestChallenge.ReadBare | src/qhttp/qhttpauthenticator.cpp:519-532 | a value without quotes is read back up to its comma |
| DigestChallenge.AuthIsChosen | src/qhttp/qhttpauthenticator.cpp:539-553 | of the protections offered "auth" is chosen, wherever it stands; without it nothing is left |
| DigestChallenge.ReadPrintedItem | src/qhttp/qhttpauthenticator.cpp:498-537 | one printed item is read back, and what follows is read next |
| DigestChallenge.ParseChallenge | src/qhttp/qhttpauthenticator.cpp:492-555 | the pointer loop computes the parse that the round trip is about |
| NtlmMessage.FieldsReadBack | src/qhttp/qhttpauthenticator.cpp:1378-1441 | each descriptor of the message leads back to exactly the bytes of its field, and the message ends where the last field does |
| NtlmMessage.FaithfulIffPackable | src/qhttp/qhttpauthenticator.cpp:908-925 | the descriptors point at contiguous fields if and only if all but the last have even sizes and all are below 65536 |
| NtlmMessage.FaithfulAt | src/qhttp/qhttpauthenticator.cpp:908-925 | where the descriptors of such a layout point |
| NtlmMessage.UnicodeIsPackable | src/qhttp/qhttpauthenticator.cpp:917-925 | in Unicode mode only the length of a field can be too much |
| NtlmMessage.OddDomainMovesUser | src/qhttp/qhttpauthenticator.cpp:908-925 | in OEM mode, behind a domain of one letter a receiver reads the first byte of the LM response as the user |
| NtlmMessage.UserIsNotReadBack | src/qhttp/qhttpauthenticator.cpp:908-925 | domain "A" and user "B" with a response that does not start with "B" are not read back |
| NtlmMessage.HeaderPartAt | src/qhttp/qhttpauthenticator.cpp:1001-1011 | the signature, the type, the descriptors and the flags are at their places in the 64 bytes of the header |
| NtlmMessage.LayoutOfFive | src/qhttp/qhttpauthenticator.cpp:1398-1434 | the running offset over the five fields is the layout the other results are about |
| NtlmMessage.EncodeField | src/qhttp/qhttpauthenticator.cpp:908-925 | a descriptor has the rounded running offset and the size, and the offset moves on behind the field |
| NtlmMessage.Phase3 | src/qhttp/qhttpauthenticator.cpp:1378-1441 | the message that is written is the one the other results are about |
| NtlmAnswer.ReceiverReads | src/qhttp/qhttpauthenticator.cpp:1378-1470 | in Unicode the receiver reads the user and workstation of the login, its domain or else, unless the user brings one, the target that the server named, and the LM response if and only if there was no target information |
| Quotes.DoQuotes | src/util/mediawikiparser.cpp:1068-1222 | for every line the tags are well nested, and each text is shown in the style that the runs before it add up to, if and only if the line does not end in a held-back text "0"; the output is what the pieces become one by one and then the closing tags, of which there are none when bold and italic were both marked up an even number of times |
| Quotes.PassesKeepLine | src/util/mediawikiparser.cpp:1069-1149 | neither rewriting pass loses or adds a character |
| Quotes.SplitRunsIsSplit | src/util/mediawikiparser.cpp:1069 | the pieces alternate between text and runs and make up the line |
| Quotes.NormalisedMarksUp | src/util/mediawikiparser.cpp:1078-1102 | after the first pass every run has two, three or five apostrophes |
| QuoteRules.KeptIsLongest | src/util/mediawikiparser.cpp:1071-1082 | a run keeps the most apostrophes at its end that can mark up anything |
| QuoteRules.ChosenIsBest | src/util/mediawikiparser.cpp:1105-1150 | of the bold runs the first behind a word of one letter becomes an apostrophe, else the first that is not behind a space, else the first |
| Quotes.NormalisedKeepsText | src/util/mediawikiparser.cpp:1078-1090 | apostrophes that are too many move to the text in front |
| Quotes.RebalancedKeepsText | src/util/mediawikiparser.cpp:1108-1149 | the second pass keeps the line; both counts stay odd only if there is no three-apostrophe run |
| Quotes.DemotedCounts | src/util/mediawikiparser.cpp:1134-1148 | turning one bold run into an italic one moves one from the one count to the other |
| Quotes.Normalise | src/util/mediawikiparser.cpp:1076-1102 | the first pass, with the counts of bold and italic runs |
| Quotes.Rebalance | src/util/mediawikiparser.cpp:1108-1149 | the second pass demotes the run it should |
| Quotes.Two | src/util/mediawikiparser.cpp:1164-1175 | a run of two switches italic and nothing else, and keeps tags nested |
| Quotes.Three | src/util/mediawikiparser.cpp:1176-1187 | a run of three switches bold and nothing else, and keeps tags nested |
| Quotes.Five | src/util/mediawikiparser.cpp:1188-1202 | a run of five switches both, and holds text back when the order is not known |
| Quotes.TracksRun | src/util/mediawikiparser.cpp:1151-1205 | each run keeps the state the parity of bold and italic runs so far, with what is held back |
| Quotes.NoTagInvented | src/util/mediawikiparser.cpp:1151-1219 | the final state is the plain one if and only if both counts are even, and then nothing is added; else just one closing tag for each style that is on, unless five apostrophes were last and no tag is open yet |
| Quotes.ZeroIsLost | src/util/mediawikiparser.cpp:1216-1219 | five apostrophes and "0" are a line of which nothing is shown |
| Quotes.CloseRest | src/util/mediawikiparser.cpp:1206-1219 | all that is open closes, innermost first, and nothing else is written |
| Quotes.LostText | src/util/mediawikiparser.cpp:1216-1219 | exactly a held-back "0" is lost |
| BlockLevels.BlockParser.DoBlockLevels | src/util/mediawikiparser.cpp:1939-2115 | where a term is the only list of its line, the output is well nested if and only if no line opens a definition list inside of an item that is still a term; all text but the list characters comes out in its order, up to white space, if every line that opens preformatted text opens a block; and where the output is well nested, every character of it stands in exactly the lists of its line, or in the section that the lines up to it make, a term in its own dt; which of all tags that were opened these are is known as well, so that two lines share an item or a paragraph only where they should |
| BlockLevels.LineHasItsItem | src/util/mediawikiparser.cpp:1989-2038 | the innermost item around the text of a list line, and around its term, is one that this line has opened |
| BlockItems.SharedListsStay | src/util/mediawikiparser.cpp:2005-2036 | the lists that a line shares with the last one are the same elements, all others that it opens are new |
| BlockLevels.TextStandsInSection | src/util/mediawikiparser.cpp:2040-2095 | text outside of lists and blocks stands in a p, or in a pre if it begins with a space |
| BlockLevels.TextStandsInItem | src/util/mediawikiparser.cpp:1989-2038 | the text of a list line stands in a list and an item for each of its list characters, and in no section |
| BlockLevels.BlankLineSeparates | src/util/mediawikiparser.cpp:2068-2090 | a blank line between two lines of text makes the second one begin a paragraph of its own |
| BlockLevels.CleanWithoutTerms | src/util/mediawikiparser.cpp:1939-2115 | lines without terms always are |
| BlockLevels.TermThenTwoDeep | src/util/mediawikiparser.cpp:1912-1927 | a term followed by a definition two deep never is |
| BlockLevels.BlockParser.DoLine | src/util/mediawikiparser.cpp:1965-2102 | the open tags are those of the last prefix and the section, a pending paragraph implies no section, a pending change of paragraph implies one |
| BlockLevels.BlockParser.ChangeLists | src/util/mediawikiparser.cpp:2005-2038 | closes what two prefixes do not share and opens what is new |
| BlockLevels.BlockParser.SameList | src/util/mediawikiparser.cpp:1989-2004 | goes on with the same lists in a new item, splitting a term at its colon |
| BlockLevels.BlockParser.CloseLists | src/util/mediawikiparser.cpp:2012-2016 | closes all lists behind the shared ones, unless a definition list sits inside of a term |
| BlockLevels.BlockParser.OpenLists | src/util/mediawikiparser.cpp:2023-2036 | opens a list and an item for each new character |
| BlockLevels.BlockParser.OpenList | src/util/mediawikiparser.cpp:1860-1877 | the tags for a list character, behind the end of the section |
| BlockLevels.BlockParser.NextItem | src/util/mediawikiparser.cpp:1886-1904 | the tags from one item to the next, as the flag for an open term has it |
| BlockLevels.BlockParser.CloseList | src/util/mediawikiparser.cpp:1912-1927 | the tags that end a list, as the flag has it |
| BlockLevels.BlockParser.CloseParagraph | src/util/mediawikiparser.cpp:1823-1831 | ends the section, and preformatted text with it |
| BlockLevels.BlockParser.GetCommon | src/util/mediawikiparser.cpp:1838-1850 | the length of the longest common prefix |
| BlockLevels.BlockParser.Paragraphs | src/util/mediawikiparser.cpp:2040-2095 | a line that is in no list ends the section for a block, leaves all as it is inside of a block or preformatted text, begins or continues preformatted text where it is indented, and else is a blank line or a line of text; it writes exactly the tags for that |
| BlockLevels.BlockParser.BlankLine | src/util/mediawikiparser.cpp:2068-2081 | a blank line writes the paragraph that was owed and a line break, or else ends the section and owes a paragraph, or owes the end of this one and the next |
| BlockLevels.BlockParser.TextLine | src/util/mediawikiparser.cpp:2082-2092 | a line of text writes the paragraph that was owed, or begins one where none is open, and is in a paragraph then |
| BlockLevels.BlockParser.Finish | src/util/mediawikiparser.cpp:2104-2111 | everything is closed at the end, unless the lists overlap; no text is added |
| WikiTables.TableParser.DoTableStuff | src/util/mediawikiparser.cpp:646-834 | for every text: the stacks are equally high throughout and empty at the end; the output is well nested if and only if no line closes in a wrong place and what is left open are plain cells without indentation, as the indentations that each table has open in it tell; cells and headers always lie in an open row of their table; every table has a row if and only if none was begun without cells; all text but markup and attributes comes out in its order, up to white space, and each character of it inside exactly the tags of the tables, row and cell that it belongs to |
| WikiTables.UnindentedIsAligned | src/util/mediawikiparser.cpp:669-681 | text without indentation is aligned |
| WikiTables.TableParser.DoLine | src/util/mediawikiparser.cpp:658-804 | the open tags stay exactly those of the open tables: table, row and cell if open, with the indentations open in each |
| WikiTables.TableParser.Row | src/util/mediawikiparser.cpp:704-730 | a row closes the cell and the row, and from then on counts as begun, though none is open and perhaps none ever was |
| WikiTables.TableParser.AddCells | src/util/mediawikiparser.cpp:731-802 | each cell closes the last one, and a td or th opens in an open row, which the table then has had; captions open none; the text of each cell stands in that cell |
| WikiTables.EachCellIsNew | src/util/mediawikiparser.cpp:757-802 | each cell is an element of its own |
| TableCells.TextBehindBar | src/util/mediawikiparser.cpp:782-797 | of a cell what stands behind its first bar is shown, unless there is none or a link begins before it |
| TableCells.BarsForHeaders | src/util/mediawikiparser.cpp:740-742 | two exclamation marks between headers separate them as two bars do |
| WikiTables.TableParser.EndTable | src/util/mediawikiparser.cpp:686-703 | closes cell and row, gives a table in which no row was begun one, pops all five stacks, and closes as many indentations as the table that began last has, which breaks the nesting if and only if fewer are open |
| WikiTables.TableParser.CloseAll | src/util/mediawikiparser.cpp:807-819 | what the text leaves open closes as if it were a plain cell: well nested if and only if it is, without open indentations |
| WikiTables.TableCloses | src/util/mediawikiparser.cpp:686-703 | a table closes if and only if the cell that is closed is the one that is open and no indentation is open in it |
| WikiTables.PairsMayClose | src/util/mediawikiparser.cpp:703 | closing indentations breaks the nesting if and only if more are closed than are open where the table stood |
| WikiTables.CloseTableRows | src/util/mediawikiparser.cpp:686-703 | a table closes with a row unless one was begun and none opened |
| WikiTables.AlignedEndsPlain | src/util/mediawikiparser.cpp:646-819 | where tables end as far indented as the last one began, the output is well nested if and only if the tables left open are unindented and have at most a td open |
| WikiTables.OpenHeaderBreaks | src/util/mediawikiparser.cpp:807-819 | a table left open in a header is not well nested |
| WikiTables.OpenCaptionBreaks | src/util/mediawikiparser.cpp:807-819 | nor is one left open in a caption |
| WikiTables.UnalignedBreaks | src/util/mediawikiparser.cpp:669-703 | nor is an indented table inside of one that is not |
| WikiTables.BegunRowIsNoRow | src/util/mediawikiparser.cpp:690-712 | a table with a row that has no cells closes without a row |
| ColonScanner.FindColonNoLinks | src/util/mediawikiparser.cpp:2126-2280 | with its shortcuts it finds the colon that the plain automaton finds first outside of all tags; before, colon and after make up the text; the number it returns is that place, or else the start of the text behind the last tag |
| ColonScanner.ResultIsColon | src/util/mediawikiparser.cpp:2160-2186 | the number is the place of the colon if and only if no tag comes before the colon or one ends right in front of it |
| ColonScanner.ColonBehindTag | src/util/mediawikiparser.cpp:2160-2186 | for a tag, a letter and a colon it is not |
| ColonScanner.TextStep | src/util/mediawikiparser.cpp:2154-2197 | skipping ahead in text never passes a colon that counts |
| ColonScanner.InsideTag | src/util/mediawikiparser.cpp:2198-2268 | one character inside of a tag or comment moves as the automaton does |
| ColonTags.TagOpens | src/util/mediawikiparser.cpp:2198-2214 | a tag without a slash opens one level, and no colon in it counts |
| ColonTags.TagClosesItself | src/util/mediawikiparser.cpp:2205-2245 | one with a slash in front of its end opens none |
| ColonTags.EndTagCloses | src/util/mediawikiparser.cpp:2226-2238 | an end tag closes one level; where none is open no colon counts any more |
| ColonTags.CommentIsSkipped | src/util/mediawikiparser.cpp:2246-2268 | a comment in which no two dashes follow one another is skipped up to its end |
| ColonScanner.NoSplitInText | src/util/mediawikiparser.cpp:2170-2196 | no colon counts in text without tags while one is open |
| ColonScanner.FoundFirst | src/util/mediawikiparser.cpp:2129-2143 | the way out for text without tags before the colon |
| ColonScanner.FoundInText | src/util/mediawikiparser.cpp:2160-2186 | the way out behind a tag |
| HeadingLevels.FormatHeadings | src/util/mediawikiparser.cpp:3675-3735 | each heading gets the number of its place; lines are written at their own depth, no list is closed that is not open, and one list is open at the end; in front of each line there is exactly one event that opens a list or ends the line before |
| HeadingLevels.FormatHeading | src/util/mediawikiparser.cpp:3675-3735 | one heading moves to its place and gets its number; indents minus unindents stay equal to prevtoclevel, which is toclevel or the limit less one |
| HeadingLevels.LevelsRise | src/util/mediawikiparser.cpp:3680-3722 | the levels on the way to a heading rise strictly, so toclevel never exceeds six |
| HeadingLevels.NumbersDiffer | src/util/mediawikiparser.cpp:3722-3735 | the numbers come in order and no two headings share one |
| HeadingNumbers.NumbersCountUp | src/util/mediawikiparser.cpp:3680-3735 | a heading takes over the numbers of the headings around it and counts on by one from the heading it follows there, or from nothing |
| HeadingLevels.Jump | src/util/mediawikiparser.cpp:3692-3705 | the search for the level to jump to finds the place of the heading among those around it |
| HeadingLevels.Enter | src/util/mediawikiparser.cpp:3680-3725 | the two arrays keep the levels and the counts of the headings around |
| HeadingLevels.Move | src/util/mediawikiparser.cpp:3680-3720 | the amount to unindent is never negative |
| HeadingLevels.Numbering | src/util/mediawikiparser.cpp:3726-3735 | the dotted number of the counts |
| Dotted.LabelsDiffer | src/util/mediawikiparser.cpp:3726-3735 | different counts give different numbers |
| Dotted.AllBefore | src/util/mediawikiparser.cpp:3722-3735 | where each number is before the next, all are different |
| TocRender.Render | src/htmlgen/toc.cpp:27-85 | the items of the sections that are not too deep come in document order, each with its number, into lists that only open on the way down and only close on the way up, so that each item hangs in as many lists as its section is deep; the cursor ends in as many as the smaller of section and limit; nothing above the cursor is touched |
| TocRender.ItemHangs | src/htmlgen/toc.cpp:37-73 | every section that is shown has its item, and it hangs in exactly as many lists as its level is above the base |
| TocRender.LabelsDifferIffNoGaps | src/htmlgen/toc.cpp:37-73 | all shown numbers differ if and only if no section is at a level that an earlier one jumped over |
| TocRender.LabelsDifferWhenRisingByOne | src/htmlgen/toc.cpp:37-73 | levels that rise by at most one never repeat a number |
| TocRender.JumpingBackRepeatsLabel | src/htmlgen/toc.cpp:37-73 | levels 1, 3, 2 give the number 1.1 twice |
| TocRender.CountsGrow | src/htmlgen/toc.cpp:39-64 | the counters grow in lexicographic order over the shown sections |
| TocRender.ItemShowsLabel | src/htmlgen/toc.cpp:64-73 | the two pieces of text of an item are the number of its section |
| TocRender.RenderSection | src/htmlgen/toc.cpp:37-85 | subcount has one counter per level, and the prefix on top is that of the levels around; the lists move to the depth of the section before its item comes |
| TocRender.GoTo | src/htmlgen/toc.cpp:37-60 | on the way to another depth the prefixes and the open lists keep step with the counters |
| TocRender.AppendItem | src/htmlgen/toc.cpp:68-79 | building an item moves the cursor back to where it was |
| TocRender.LeavingKeepsItems | src/htmlgen/toc.cpp:52-59 | closing a list keeps the items, their order and the lists that each hangs in |
| TocRender.LowerFirst | src/htmlgen/toc.cpp:29-32 | the first section is lowered to the least level |
| ElementCursor.OperationKeepsOk | src/htmlgen/element.h:50-57 | every table operation, and everything done inside of cells, keeps the stack equal to the names on the path, tables holding only rows and captions and rows only cells, and touches the innermost table at most |
| ElementCursor.RunKeepsOk | src/htmlgen/element.h:50-57 | so does every run, and it leaves alone all that was there before |
| ElementText.OperationKeepsText | src/htmlgen/element.h:50-70 | every operation keeps all text that is not blank, that still in the buffer included, in document order and each character in the elements in which it was written, and adds just what it is for |
| ElementText.RunKeepsText | src/htmlgen/element.h:50-70 | so does every run |
| ElementText.TextStaysInCell | src/htmlgen/element.cpp:98-110 | text written in a cell is in that very cell whatever follows, also once it is closed |
| ElementCursor.OperationIs | src/htmlgen/element.h:50-57 | each operation closes down to the row or table it is for, and opens what its name says |
| ElementCursor.SucceedInTable | src/htmlgen/element.h:50-57 | in an open table no operation throws or fails its assertion |
| ElementCursor.EndCellCloses | src/htmlgen/element.cpp:98-110 | endCell closes the cell the cursor is in with all in it, and nothing else |
| ElementCursor.EndRowCloses | src/htmlgen/element.h:50 | endRow closes all in the innermost table |
| ElementCursor.ClimbClosesToCell | src/htmlgen/element.cpp:98-104 | the climb ends at the innermost cell of the type |
| ElementCursor.TableIsInnermost | src/htmlgen/element.cpp:98-104 | between that table and the cursor there is no other table |
| ElementCursor.MovesKeepShadow | src/htmlgen/element.cpp:44-95 | moving the cursor keeps the stack of names in step with the path |
| ElementCursor.MayStartAnywhere | src/htmlgen/element.h:20-21 | a cursor made from any element meets what the runs start from |
| ElementCursor.CElement.BecomeChild | src/htmlgen/element.cpp:44-60 | appends an element, enters it and pushes its name |
| ElementCursor.CElement.BecomeParent | src/htmlgen/element.cpp:63-95 | leaves an element, turning an empty paragraph into a line break or nothing, and fails where there is no parent |
| ElementCursor.CElement.FlushBuffer | src/htmlgen/element.h:69-70 | the buffer becomes a text node unless it is blank |
| ElementText.FlushKeepsText | src/htmlgen/element.h:69-70 | what was in the buffer is then in the tree, in the element in which it was written |
| ElementCursor.CElement.EndCell | src/htmlgen/element.cpp:98-110 | the climbing loop terminates, and says when there was nothing to climb to |
| ElementCursor.CElement.EndRow | src/htmlgen/element.h:50 | as the function, and exactly when it succeeds |
| ElementCursor.CElement.EndTable | src/htmlgen/element.h:51 | as the function, and exactly when it succeeds |
| ElementCursor.CElement.StartRow | src/htmlgen/element.h:53 | as the function, and exactly when it succeeds |
| ElementCursor.CElement.StartCell | src/htmlgen/element.h:54-55 | as the function, and exactly when it succeeds |
| ElementCursor.CElement.StartCaption | src/htmlgen/element.h:57 | as the function, and exactly when it succeeds |
| ElementCursor.CElement.StartTable | src/htmlgen/element.h:56 | as the function |
| WikiLists.LinesKeep | src/htmlgen/code.cpp:297-370 | after any lines the path is the base and a list and an item for each list character of the last line, and what encloses the base is untouched |
| WikiListText.LinesKeepText | src/htmlgen/code.cpp:297-370 | any lines keep all text in its place and add theirs where their list characters lead |
| WikiListText.ListLineStartsItem | src/htmlgen/code.cpp:297-357 | a line with list characters leads to an item that has nothing in it yet |
| WikiLists.ListLineKeeps | src/htmlgen/code.cpp:297-357 | a line leaves alone whatever encloses the first character that differs |
| WikiLists.OtherLineKeeps | src/htmlgen/code.cpp:358-370 | a line without list characters goes back to the base |
| WikiLists.WikiListParser.ListLine | src/htmlgen/code.cpp:297-357 | the parser does that, takes exactly the list characters of the line and stops on the last of them |
| WikiLists.WikiListParser.OtherLine | src/htmlgen/code.cpp:358-370 | the parser closes all lists and empties current_list |
| WikiLists.WikiListParser.CloseLists | src/htmlgen/code.cpp:311-315 | closes one item and one list for each character erased |
| WikiLists.WikiListParser.OpenLists | src/htmlgen/code.cpp:324-337 | opens a list and an item for each new character |
| WikiLists.WikiListParser.Match | src/htmlgen/code.cpp:299-306 | how far the line agrees with the open lists |
| TagReader.ReadTag | src/parse/container_stream.cpp:58-226 | on NUL-free text: it succeeds exactly when a kind of tag begins here, a closer of no lesser kind stands where its parts end and the mode does not refuse it; then namespace, name and attributes are those parts, the closer is the nearest of the same kind, and the position is on its last character; when it fails, position and mode are what they were |
| TagReader.PlainTagIsFound | src/parse/container_stream.cpp:91-187 | a tag with nothing but a plain name in it has that name, no namespace and no attributes, and ends behind the name |
| WrittenTags.WrittenTagIsFound | src/parse/container_stream.cpp:91-187 | a tag of any kind written with up to two namespaces, a name and attributes, with spaces around each, is found with just these, in order, the name of an attribute before its value |
| WrittenTags.LinkIsRead | src/parse/container_stream.cpp:91-187 | a link with a namespace and two attributes, the second without a name |
| TagReader.ReadCloser | src/parse/container_stream.cpp:189-209 | only the closer of the kind that was opened is accepted |
| TagReader.EndsItself | src/parse/container_stream.cpp:190-206 | where a closer of no lesser kind stands, it is that of the tag itself |
| TagReader.ReadOpener | src/parse/container_stream.cpp:74-89 | the longest opener decides the kind |
| TagReader.ReadSpace | src/parse/container_stream.cpp:91-112 | without a namespace a bracket becomes a plain one and the position returns |
| TagReader.ReadAttributes | src/parse/container_stream.cpp:145-187 | one attribute per separator, with a name only where there is a value; the loop advances, also across the end of the text |
| TagReader.ReadName | src/parse/container_stream.cpp:114-140 | the name, and a second namespace in front of it that makes the first one an interwiki prefix |
| TagReader.ScanName | src/parse/container_stream.cpp:91-96 | stops at the first separator or end, and never passes a closer |
| TagReader.FindCloser | src/parse/container_stream.cpp:50-56 | the last kind in the table whose closer stands here |
| TagReader.TaggersAreTable | src/parse/container_stream.cpp:33-40 | no separator in the table can begin a closer |
| CharStream.CCharStream.Increment | src/parse/char_stream.cpp:59-65 | one further, up to one behind the end |
| CharStream.CCharStream.Decrement | src/parse/char_stream.cpp:67-73 | one back, down to the start |
| CharStream.CCharStream.Advance | src/parse/char_stream.cpp:51-57 | further only inside the text |
| CharStream.CCharStream.Read | src/parse/char_stream.cpp:27-42 | the character here or the one peeked at, which ends the peek |
| CharStream.CCharStream.IndexInLine | src/parse/char_stream.cpp:75-83 | the first place of a character on the line |
| ParserMode.CParserMode.Assign | src/parse/parser_mode.cpp:5-20 | pops on the closer of the mode in force, pushes a known mode where that is allowed, and fails without a change where it is not |
| ParserMode.BeginAndEnd | src/parse/parser_mode.cpp:5-20 | beginning a mode and ending it restores the stack |

## Left out

- Sockets, DNS, TLS, proxies, timers and Qt's event loop; a receiver of a signal that runs an event loop of its own, or
  that aborts from requestStarted, is not part of the request queue model.
- ChunkedBody.ChunkedReply.SlotReadyRead: under `repost`, when a body answers a request for authentication, the decoded
  bytes are dropped instead of stored; that is not part of it.
- QRingBuffer::readPointerAtPosition, whose test for the first block is right only while nothing has been taken from it.
- The branches of _q_slotReadyRead for a content length or no length at all, the header and the download device.
- QString::toInt, QByteArray::trimmed, preg_split and the like are modelled as Qt and PHP document them.
- The hashes behind digest and NTLM responses, NTLMv1 and the decoding of the second NTLM message: the responses are
  inputs here. The bound below 2^32 on the offsets of FaithfulIffPackable is that of the 32-bit field they are stored in.
- BlockLevels.BlockParser.DoBlockLevels: lines with a semicolon in a longer prefix are not covered, because one flag
  cannot tell which of several lists a term is open in; the regular expressions and the colon scanner are arbitrary
  functions in it, so tags inside of the text of a line do not take part in the nesting.
- WikiTables.TableParser.DoTableStuff: attributes and the last step, which drops the final line break and a table that
  is empty altogether, are not modelled.
- HeadingLevels.FormatHeadings: anchors, section edit links and the Linker class are not modelled; their calls are events.
- TocRender.Render: the heading and the toggle link above the lists, and the attributes of elements other than the type
  of a tag, are not modelled.
- ElementCursor.RunKeepsOk: the table operations of one tag type are followed; tables of another type inside are not.
- WikiLists.LinesKeep: the content of a line is whole nodes, and a paragraph that HTML lists or tables open at the start
  of a line is not part of it; when the lists begin inside of a list item, that item may end and its next one begin.
- TagReader.ReadTag: the hash of a name is an arbitrary function, and so is the character behind the end of the text.
- ParserMode.CParserMode.Assign: ending a mode where none has begun leaves the empty stack as it is; where a mode is
  refused, the text of the error is read from a table by a hash that is out of its range, and is left out.
- find_match, replace_match, the rest of CCodeGenerator::parse, brace substitution, variables, hooks, Sanitizer and
  Linker: they depend on classes that are not in the repository.
- romanToInt and lettersToInt, whose guards reject all letters; the Lua sandbox, SQL, HTTP server, images and services.
