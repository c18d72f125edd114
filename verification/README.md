# Mile: verified models of the document server's core

Mile is a document and index server. This project models, in Dafny, the parts of
its code whose correctness spans many functions or whole runs, and proves what
those parts promise.

* **Packet pipeline** (`DocServer`, `DocServerMemory`, `DocServerSafety`, `Fifo`,
  `Shutdown`, `Progress`).
  One event-loop thread and any number of workers share reference-counted
  connections, two input queues and an output queue with a notify pipe. The
  model is a step machine in which memory errors (use after free, double free,
  a reference count below zero) set a `fault` flag; that no interleaving sets it
  is a theorem. Worker steps may fall between any two event-loop steps, also
  between appending a packet and counting it, and between reading the pipe and
  dequeuing.
* **Byte streams of a connection** (`SendPath`, `RecvPath`). The receive buffer
  that cuts frames, with growth for oversized frames, and the send buffer with
  partial writes and timeouts, both as classes over arrays. Frames are recognised as
  `pre_parse_packet` does it (lines 370-403 of
  `docserver/indexengine/src/protocol/protocol.cpp`): a four-byte length in network
  order that counts itself, then the body, with the message type in network order at
  offset 2.
* **Intrusive lists** (`Ring`, `MileLists`) with their pointers.
* **Query result sets** (`Rows`, `MileArrays`, `HashTables`, `ResultSets`):
  streaming DISTINCT / ORDER BY / LIMIT on a heap in a growing array and a
  bucketed hash set.
* **Configuration files** (`ConfigFile`) and the **sorted string map** (`StringMap`).
* **The bundled test framework**: regular expressions (`Regex`), name filters and
  sharding (`Filters`), registration and shuffling (`TestCases`), UTF-16 to UTF-8
  (`Utf8`), CDATA output (`CData`).

`dafny verify dfyconfig.toml` checks everything.

## What was found

Some properties the code or its comments suggest do not hold on all inputs. Each
is stated with its exact condition and an input that breaks it.

* A complete frame of 2^31 bytes or more leaves the receive buffer full, and the
  next read, of length zero, closes the connection as if the peer had; a frame
  length below four is undefined behaviour. On every stream the frames in front of such a
  length, and all frames if there is none, are those that were encoded, however reads
  chop it (`RecvPath.ReceiveStream`; inputs in `RecvPath.UnhandledStreams`).
* At shutdown the worker threads are joined if and only if the notify pipe has room for
  the bytes they have still to write, since nobody reads it any more
  (`Shutdown.JoinsComeBackExactly`; for every pipe and batch size
  `Shutdown.StuckJoin` reaches a state without that room).
* The unused gathering sender writes past the send buffer. A call keeps the stream in
  order if and only if the bytes it wrote and the bytes it overtook may change places
  (`SendPath.Connection.SendDataWritev`); it does so whatever the kernel accepts if and
  only if the buffer is empty, nothing is offered or all bytes are equal
  (`SendPath.BypassExactly`). A run that loses the order is in `SendPath.BufferOvertaken`.
* `RE::FullMatch` means a match of the whole string if and only if the pattern does
  not end in an escaped `$` (`Regex.FullMatchIsWholeMatch`; input in
  `Regex.EscapedDollarCounterexample`).
* Loading a dumped configuration gives it back if and only if its names, keys and values
  survive trimming and splitting (`ConfigFile.RoundTripExactly`; input in
  `ConfigFile.BlankMarginIsLost`); what was read from lines always does
  (`ConfigFile.ParsedRoundTrips`).
* `CodePointToUtf8` is documented to print a message for every number above
  0x10FFFF; the code encodes numbers up to 0x1FFFFF, and surrogates, as bytes that
  are not UTF-8 (`Utf8.EncodesExactlyScalars`; inputs in `Utf8.NotMessages`). The
  model follows the code.
* The read-only accessor for the i-th test case ignores the shuffled index; it
  agrees with the accessor used for running exactly while the test cases are not
  shuffled (`TestCases.AccessorsAgree`; a run in `TestCases.AccessorsDisagree`).
* A full string map refuses to replace the value of a key it holds
  (`StringMap.Table.Put`; a run in `StringMap.RefusedReplacement`).

## Model

| member | source | states |
|---|---|---|
| DocServerSafety.EveryState | docserver/indexengine/src/docserver.cpp:566-641 | every state of every interleaving satisfies the whole invariant: no memory error, one place per packet, exact counts, write events, listen event and pipe bytes |
| DocServerSafety.CountIsPacketsInFlight | docserver/indexengine/src/docserver.h:68-70 | packet_num is the number of the connection's packets in the input queues, with workers, in the output queue or in the dequeued batch; no packet refers to a freed connection; no fault has happened |
| DocServerSafety.ClosedIsFreedWithLastPacket | docserver/indexengine/src/docserver.cpp:335-346 | a closed connection is allocated exactly as long as packets of it are in flight |
| DocServerSafety.NoLostWakeUp | docserver/indexengine/src/docserver.cpp:166-232 | whenever the event loop waits with a non-empty output queue, the pipe is readable or a producer is about to write to it |
| DocServerSafety.QuietMeansClean | docserver/indexengine/src/docserver.cpp:566-641 | when all threads wait and nothing is readable, no packet is in flight and every closed connection has been freed |
| Fifo.OutputIsFifo | docserver/indexengine/src/docserver.cpp:204-232 | in every execution the packets delivered so far, then the batch at hand, then the output queue are exactly the packets the workers put there, in that order |
| Fifo.InputIsFifo | docserver/indexengine/src/docserver.cpp:90-117 | in every execution, for each input queue, the packets taken so far and then the queue are exactly the packets that came in, in that order |
| Fifo.SendListsAreFifo | docserver/indexengine/src/docserver.cpp:576-602 | in every execution each send list is the last part of the packets handed over to its connection, in the order of their delivery; those before them have left it |
| Fifo.PacketsHaveAnOrigin | docserver/indexengine/src/docserver.cpp:372-381 | in every execution each packet belongs to the connection it was read from |
| Fifo.ResponsesGoHome | docserver/indexengine/src/docserver.cpp:576-602 | in every execution a response waits only on the connection its request was read from |
| Progress.WorkIsBounded | docserver/indexengine/src/docserver.cpp:566-641 | in every stretch of every execution the pipeline steps are at most the work present plus ten for each request that arrives: nothing spins |
| Progress.SettlesClean | docserver/indexengine/src/docserver.cpp:566-641 | a running server that gets no more requests takes a bounded number of pipeline steps from any reachable state, and with none left no packet is in flight and every closed connection has been freed |
| DocServerSafety.MemoryStep | docserver/indexengine/src/docserver.cpp:304-346 | each step of each thread keeps placement, ownership and counts and touches no freed memory |
| DocServerSafety.ConnectionStep | docserver/indexengine/src/docserver.cpp:280-301 | each step keeps: write event armed iff open and something to send; total_conn_num is the number of open connections, at most max_conn_num; listening iff below it |
| DocServerSafety.NotifiedStep | docserver/indexengine/src/docserver.cpp:204-232 | each step keeps: output queue length at most pipe bytes plus producers between append and write plus bytes just read, although a batch may take more packets than bytes read |
| DocServerMemory.DeliverMemory | docserver/indexengine/src/docserver.cpp:576-608 | delivering one packet of a batch, on an open or closed connection, accepted or discarded, keeps the memory invariant for the rest of the batch |
| DocServerMemory.CloseMemory | docserver/indexengine/src/docserver.cpp:304-346 | closing, or closing again, frees the connection and its send list only when nothing counts for it, and keeps the memory invariant |
| Shutdown.DestroyDocserverConfig | docserver/indexengine/src/docserver.cpp:684-700 | from every reachable joined state shutdown terminates, frees every packet and every connection, none twice, no count below zero |
| Shutdown.DestroyInPacketQueue | docserver/indexengine/src/docserver.cpp:72-87 | drains one input queue, keeps the memory invariant and leaves the other queues alone |
| Shutdown.DestroyOutPacketQueue | docserver/indexengine/src/docserver.cpp:144-163 | drains the output queue, keeps the memory invariant and leaves the input queues alone |
| Shutdown.WorkersWindDown | docserver/indexengine/src/docserver.cpp:100-117 | after the stop request the workers together take exactly the steps they had left, at most four each, in every interleaving |
| Shutdown.JoinsComeBackExactly | docserver/indexengine/src/docserver.cpp:1273-1284 | after the event loop: with room in the pipe for the outstanding bytes all workers have exited when none can step; without it not all ever exit |
| Shutdown.StuckJoin | docserver/indexengine/src/docserver.cpp:166-181 | for every pipe size, batch size and connection limit a stopped server is reachable, with a single worker, that can never join it |
| SendPath.StreamIsConserved | docserver/indexengine/src/docserver.cpp:411-445 | bytes written, then the send buffer, then the unsent rests equal the concatenation of the kept responses in queue order |
| SendPath.EveryRunConserves | docserver/indexengine/src/docserver.cpp:411-550 | every run of queueing, discarding untouched packets, buffering whole or part, and writing keeps the conservation invariant |
| SendPath.WireIsPrefixOfKept | docserver/indexengine/src/docserver.cpp:523-550 | after every run what was written is a prefix of whole kept responses in order, and each response is kept or dropped, not both |
| SendPath.Connection.QueueResponse | docserver/indexengine/src/docserver.cpp:593-601 | appends the response and arms the write event iff something is pending |
| SendPath.Connection.AdjustSendBuffer | docserver/indexengine/src/docserver.cpp:411-445 | keeps conservation and the buffer bound, drops exactly the expired packets that reach the head untouched, fills the buffer with the whole packets that fit, or the first part of one too large for an empty buffer, and stops only when the next does not fit |
| SendPath.Connection.SendData | docserver/indexengine/src/docserver.cpp:523-550 | offers exactly the buffer as the first adjustment fills it, writes exactly what the kernel accepts of it, fails exactly when none is accepted, keeps conservation, and leaves the write event armed iff something is pending; its effect is the one the pipeline model assumes |
| SendPath.Connection.SendDataWritev | docserver/indexengine/src/docserver.cpp:447-521 | offers the rests of the packets it gathers, writes exactly what the kernel accepts of them, drops only expired or empty packets, stays armed iff it failed or packets remain, and keeps the stream in order if and only if the written and the buffered bytes commute |
| SendPath.OvertakenExactly | docserver/indexengine/src/docserver.cpp:491-518 | bytes sent from the send list past the send buffer keep conservation if and only if they commute with it |
| SendPath.BypassExactly | docserver/indexengine/src/docserver.cpp:491-518 | the offered bytes keep the stream in order for every number the kernel may accept if and only if the send buffer is empty, nothing is offered or all bytes are equal |
| SendPath.BufferOvertaken | docserver/indexengine/src/docserver.cpp:447-550 | a run of queueing, a partial write, queueing and a gathering write that ends with the stream out of order |
| SendPath.Connection.GatherVector | docserver/indexengine/src/docserver.cpp:465-488 | keeps exactly the begun and the unexpired non-empty packets among those examined, stops at a limit or the end, and counts exactly their bytes |
| SendPath.Connection.RemoveSent | docserver/indexengine/src/docserver.cpp:499-518 | exactly the first bytes of the rests in queue order went out, over any number of packets, and the others are left |
| RecvPath.ReceiveStream | docserver/indexengine/src/docserver.cpp:348-408 | for every chopping, any stream arrives as its frames up to the first unmanageable length, each in its queue and in order; encoded bodies followed by an incomplete or malformed rest arrive as exactly these bodies, and encoded messages as exactly those of type 0x2101 in the insert queue and exactly the others in the query queue, in order |
| RecvPath.Receiver.RecvData | docserver/indexengine/src/docserver.cpp:348-408 | the queues hold exactly the frames of everything read, also on a crash; the buffer has room for the next read exactly if the stream is manageable; an empty read means the peer closed |
| RecvPath.Receiver.ExtractFrames | docserver/indexengine/src/docserver.cpp:369-385 | the loop hands over the frames of the buffer in order and stops at an incomplete one |
| RecvPath.InsertByType | docserver/indexengine/src/docserver.cpp:374-379 | a message goes to the insert queue if and only if the type its sender wrote is 0x2101 |
| RecvPath.RoutedByType | docserver/indexengine/src/docserver.cpp:374-379 | the bodies of each queue are those of the messages of its types, in order |
| RecvPath.BodyOfMessage | docserver/indexengine/src/docserver.cpp:374-379 | every body of four bytes or more is that of some message |
| RecvPath.SplitExtends | docserver/indexengine/src/docserver.cpp:369-391 | splitting a stream in two pieces, with the remainder carried over, gives the same frames as splitting it whole |
| RecvPath.SplitUndoesJoin | docserver/indexengine/src/docserver.cpp:369-391 | encoded bodies followed by anything are split into exactly these bodies and then the frames of the rest |
| RecvPath.JoinUndoesSplit | docserver/indexengine/src/docserver.cpp:369-391 | the frames of any stream, encoded again, and the rest are the stream |
| RecvPath.RestIsIncomplete | docserver/indexengine/src/docserver.cpp:388-404 | what is left over holds no further frame, or is exactly one of the two unmanageable cases |
| RecvPath.UnhandledStreams | docserver/indexengine/src/docserver.cpp:369-370 | concrete streams of both unmanageable kinds |
| Ring.ListAddTail | docserver/indexengine/src/common/list.h:50-53 | on a ring, appends the node: still doubly linked, circular and without repetition |
| Ring.ListAdd | docserver/indexengine/src/common/list.h:40-43 | on a ring, inserts the node in front: still doubly linked, circular and without repetition |
| Ring.ListDel | docserver/indexengine/src/common/list.h:60-71 | on a ring, removes exactly the entry and clears its links |
| Ring.ListEmpty | docserver/indexengine/src/common/list.h:85-88 | true exactly for the ring without entries |
| Ring.Perform | docserver/indexengine/src/common/list.h:25-71 | among any number of rings without common nodes, an insertion or deletion changes its own ring as it should and keeps all rings linked and apart |
| Ring.InPacketQueue.AddInPacket | docserver/indexengine/src/docserver.cpp:90-97 | appends at the end of the queue, whose packet_num is its length |
| Ring.InPacketQueue.GetInPacket | docserver/indexengine/src/docserver.cpp:100-117 | takes the first packet of the queue |
| Ring.MovePacket | docserver/indexengine/src/docserver.cpp:90-117 | moving a packet between two disjoint queues moves exactly that packet, keeps both rings and any third one, and keeps them all apart |
| MileLists.MileList.Add | docserver/indexengine/src/common/MileList.cpp:56-71 | appends to the linked chain |
| MileLists.MileList.Pop | docserver/indexengine/src/common/MileList.cpp:74-88 | removes and returns the last item, nothing from an empty list |
| MileLists.MileList.Visit | docserver/indexengine/src/common/MileList.cpp:24-41 | the iterator visits every item once, in order |
| ResultSets.DistinctOrderedQuery | docserver/indexengine/src/execute/DistOrdRS.cpp:31-61 | for every sequence of rows and limit: min(limit, classes) pairwise different rows are kept, and, if the rows can be ordered, every row left out is at or above every kept row |
| ResultSets.DistOrdRS.AddResult | docserver/indexengine/src/execute/DistOrdRS.cpp:31-61 | each call keeps the answer over all rows so far, with rejected rows missing from the set and evicted ones still in it; -2 is returned exactly when the kept row it was compared with cannot be compared to it, changes nothing kept, and never happens on rows that can all be compared |
| Rows.ComparableRows | docserver/indexengine/src/common/Comparator.h:14 | any rows that can all be compared with one another may be the sortable rows of the result-set theorems |
| ResultSets.Replaced | docserver/indexengine/src/execute/DistOrdRS.cpp:45-50 | replacing the greatest kept row by a smaller new one keeps the top-k answer |
| ResultSets.SeenAgain | docserver/indexengine/src/execute/DistOrdRS.cpp:35-37 | ignoring a row whose class was seen keeps the top-k answer, also for an evicted class |
| ResultSets.DistinctQuery | docserver/indexengine/src/execute/DistinctRS.cpp:31-42 | the kept classes are exactly the first `limit` distinct classes of the stream |
| ResultSets.DistinctRS.AddResult | docserver/indexengine/src/execute/DistinctRS.cpp:31-42 | each call keeps the first-k answer; the limit warning is returned when the set was full, and success otherwise |
| MileArrays.MileArray.BuildHeap | docserver/indexengine/src/common/MileArray.cpp:77-85 | permutes the array into a max-heap |
| MileArrays.MileArray.Heapify | docserver/indexengine/src/common/MileArray.cpp:87-108 | computes the sift-down of the root in place |
| MileArrays.SiftHeaps | docserver/indexengine/src/common/MileArray.cpp:87-108 | sifting down repairs a heap broken at one place only |
| MileArrays.SiftPermutes | docserver/indexengine/src/common/MileArray.cpp:87-108 | sifting down loses and adds nothing |
| MileArrays.RootIsGreatest | docserver/indexengine/src/execute/DistOrdRS.cpp:44 | no element of a heap is above its root |
| MileArrays.MileArray.Add | docserver/indexengine/src/common/MileArray.cpp:43-59 | appends, also when the array has to be doubled |
| MileArrays.MileArray.Get | docserver/indexengine/src/common/MileArray.cpp:61-65 | the i-th element, or nothing beyond the end |
| MileArrays.MileArray.Set | docserver/indexengine/src/common/MileArray.cpp:67-71 | replaces the i-th element, or changes nothing beyond the end |
| HashTables.HashSet.Add | docserver/indexengine/src/common/HashSet.cpp:100-120 | adds the row iff no Equal row is stored: one entry per class in its own bucket, num is the class count, non-null chains are not empty |
| HashTables.HashSet.Get | docserver/indexengine/src/common/HashSet.cpp:74-91 | the stored Equal row if there is one |
| HashTables.HashSet.Contains | docserver/indexengine/src/common/HashSet.cpp:93-98 | whether an Equal row is stored anywhere in the table |
| HashTables.MileHashMap.Put | docserver/indexengine/src/common/MileHashMap.cpp:117-143 | rebinds the key's class and no other; num grows exactly for a new class |
| HashTables.MileHashMap.Get | docserver/indexengine/src/common/MileHashMap.cpp:145-164 | the value the key's class is bound to, nothing iff it is unbound |
| HashTables.ClassInOwnBucket | docserver/indexengine/src/common/HashSet.cpp:74-91 | an entry Equal to a key lies in the bucket the key hashes to |
| HashTables.EntriesDistinct | docserver/indexengine/src/common/HashSet.cpp:100-120 | no entry occurs twice in the table |
| HashTables.Visit | docserver/indexengine/src/common/HashSet.cpp:24-53 | First, IsDone, CurrentItem and Next visit every entry exactly once |
| HashTables.BucketIterator.First | docserver/indexengine/src/common/HashSet.cpp:24-32 | positions the iterator before all entries |
| HashTables.BucketIterator.Next | docserver/indexengine/src/common/HashSet.cpp:34-45 | moves past exactly one entry, over null buckets |
| ConfigFile.ParsedRoundTrips | docserver/indexengine/src/common/ConfigFile.cpp:85-151 | any configuration read from lines without NUL and newline is what loading its dump gives |
| ConfigFile.RoundTripExactly | docserver/indexengine/src/common/ConfigFile.cpp:58-151 | loading a dump gives the configuration back if and only if it is representable, whatever the map order |
| ConfigFile.BlankMarginIsLost | docserver/indexengine/src/common/ConfigFile.cpp:112-115 | the dump of a configuration whose one value begins with a blank loads as something else |
| ConfigFile.LineMeaning | docserver/indexengine/src/common/ConfigFile.cpp:85-118 | each line, written out with any blanks around its parts, does what its kind says: empty lines and comments nothing, a session name starts that session, an entry binds its key; a bracket not closed and a line without `=` are errors |
| ConfigFile.EveryLine | docserver/indexengine/src/common/ConfigFile.cpp:85-118 | every string is a line of one of these kinds |
| ConfigFile.FileMeaning | docserver/indexengine/src/common/ConfigFile.cpp:58-83 | a file does what its lines do, one after the other |
| ConfigFile.IgnoredInFile | docserver/indexengine/src/common/ConfigFile.cpp:89 | a comment or an empty line put in or taken out anywhere changes nothing of what a file loads to, nor of what a bad file leaves |
| ConfigFile.JoinedLines | docserver/indexengine/src/common/ConfigFile.cpp:70-74 | the lines read are the text cut at its newlines and at nothing else |
| ConfigFile.SetEntry | docserver/indexengine/src/common/ConfigFile.cpp:44-56 | the session exists afterwards, the key has the value in it, and every other key of every session keeps its value |
| ConfigFile.DumpOfOne | docserver/indexengine/src/common/ConfigFile.cpp:139-151 | the exact text of a session with one entry |
| ConfigFile.ReadEntry | docserver/indexengine/src/common/ConfigFile.cpp:105-116 | parsing a printed entry line, also with empty key or value, sets exactly that entry |
| ConfigFile.ParseKeeps | docserver/indexengine/src/common/ConfigFile.cpp:85-118 | parsing a line keeps a configuration representable |
| ConfigFile.ConfigFile.ParseLine | docserver/indexengine/src/common/ConfigFile.cpp:85-118 | the effect of one line on session and map; an error changes nothing |
| ConfigFile.ConfigFile.LoadFile | docserver/indexengine/src/common/ConfigFile.cpp:58-83 | succeeds iff every line parses; holds what the lines before the first bad one say |
| ConfigFile.ConfigFile.Dump | docserver/indexengine/src/common/ConfigFile.cpp:139-151 | the text of all sessions and entries in map order |
| ConfigFile.ConfigFile.SetValue | docserver/indexengine/src/common/ConfigFile.cpp:44-56 | binds the key in the session, the default one if none is given, and changes nothing else |
| ConfigFile.ConfigFile.GetValue | docserver/indexengine/src/common/ConfigFile.cpp:120-129 | the bound value, or the default |
| StringMap.Table.Put | docserver/indexengine/src/common/string_map.c:24-47 | keeps the array strictly sorted and binds the key; a full table is left unchanged, even for a key it holds |
| StringMap.RefusedReplacement | docserver/indexengine/src/common/string_map.c:26-27 | a table of size one keeps the old value of its key |
| StringMap.Table.Remove | docserver/indexengine/src/common/string_map.c:58-70 | unbinds the key and returns what it was bound to |
| StringMap.Table.Get | docserver/indexengine/src/common/string_map.c:49-56 | the value bound to the key, or nothing |
| StringMap.InsertMap | docserver/indexengine/src/common/string_map.c:24-47 | inserting an entry for an unbound key adds exactly that binding |
| StringMap.CutMap | docserver/indexengine/src/common/string_map.c:58-70 | cutting out an entry keeps the order and removes exactly its binding |
| StringMap.LessIsTransitive | docserver/indexengine/src/common/string_map.c:7-10 | the string comparison is transitive |
| StringMap.LessIsLexicographic | docserver/indexengine/src/common/string_map.c:7-10 | the comparison is the dictionary order: a string comes before its continuations, and otherwise the first difference decides |
| Regex.ValidateRegex | docserver/gtest-1.5.0/src/gtest-port.cc:230-284 | accepts exactly the texts of the pattern grammar, whose atoms, escapes and repetitions are listed character by character |
| Regex.ParseIsSound | docserver/gtest-1.5.0/src/gtest-port.cc:230-284 | an accepted text is the text of a well-formed pattern |
| Regex.TextIsAccepted | docserver/gtest-1.5.0/src/gtest-port.cc:230-284 | the text of every well-formed pattern is accepted |
| Regex.AtomMatchesChar | docserver/gtest-1.5.0/src/gtest-port.cc:201-220 | an atom matches exactly the characters it stands for: a dot all but newline, each class its listed characters, its capital the others, escaped punctuation and a plain character itself |
| Regex.IsPunct | docserver/gtest-1.5.0/src/gtest-port.cc:184-186 | exactly the ASCII characters with a glyph that are no letter and no digit |
| Regex.IsValidEscape | docserver/gtest-1.5.0/src/gtest-port.cc:195-197 | exactly the punctuation and the eleven class letters |
| Regex.IsRepeat | docserver/gtest-1.5.0/src/gtest-port.cc:187 | exactly the three repetition characters |
| Regex.IsWhiteSpace | docserver/gtest-1.5.0/src/gtest-port.cc:188 | exactly the six listed blanks |
| Regex.IsWordChar | docserver/gtest-1.5.0/src/gtest-port.cc:189-192 | exactly the listed letters, the digits and the underscore |
| Regex.MatchRegexAtHead | docserver/gtest-1.5.0/src/gtest-port.cc:320-346 | true iff some prefix is in the language of the pattern; terminates because the pattern shrinks |
| Regex.MatchRepetitionAndRegexAtHead | docserver/gtest-1.5.0/src/gtest-port.cc:293-315 | true iff some number of repetitions within the bounds leaves a match of the tail |
| Regex.MatchRegexAnywhere | docserver/gtest-1.5.0/src/gtest-port.cc:356-369 | true iff some substring, or a prefix for an anchored pattern, is in the language |
| Regex.RE.Init | docserver/gtest-1.5.0/src/gtest-port.cc:390-421 | valid iff grammatical; the stored full pattern is the text of a well-formed pattern |
| Regex.RE.PartialMatch | docserver/gtest-1.5.0/src/gtest-port.cc:385-387 | matches the language of the pattern anywhere |
| Regex.RE.FullMatch | docserver/gtest-1.5.0/src/gtest-port.cc:379-381 | matches the language of the anchored pattern that Init builds |
| Regex.FullMatchIsWholeMatch | docserver/gtest-1.5.0/src/gtest-port.cc:390-421 | a full match is a match of the whole string, for all strings, if and only if the pattern does not end in an escaped dollar |
| Regex.EscapedDollarCounterexample | docserver/gtest-1.5.0/src/gtest-port.cc:410-416 | the pattern `\$` fully matches `$x` |
| Filters.PatternMeansGlob | docserver/gtest-1.5.0/src/gtest.cc:422-437 | the recursive matcher decides the declarative meaning of `*` and `?` |
| Filters.MatchesFilter | docserver/gtest-1.5.0/src/gtest.cc:439-457 | true iff one of the patterns between colons matches |
| Filters.FilterMatchesTest | docserver/gtest-1.5.0/src/gtest.cc:463-491 | selects iff some positive and no negative pattern matches the full name; no positive part means all |
| Filters.SelectsMeans | docserver/gtest-1.5.0/src/gtest.cc:463-491 | a filter without a dash selects the names one of its patterns matches; behind a dash are the patterns of what is left out, of everything if nothing is before it; the name is the test case, a dot and the test |
| Filters.EitherPattern | docserver/gtest-1.5.0/src/gtest.cc:439-457 | a colon separates two alternatives |
| Filters.FilterTests | docserver/gtest-1.5.0/src/gtest.cc:4165-4216 | marks exactly the runnable tests of this shard, marks a test case iff one of its tests is, and returns their number |
| Filters.RunnableMeans | docserver/gtest-1.5.0/src/gtest.cc:4184-4199 | unless disabled tests are asked for, a test runs only if neither its name nor its test case starts with DISABLED_ or has /DISABLED_ in it |
| Filters.DisabledNames | docserver/gtest-1.5.0/src/gtest.cc:146 | the names that match the pattern of disabled tests |
| Filters.ShardOfTest | docserver/gtest-1.5.0/src/gtest.cc:4154-4156 | the runnable test with k runnable tests before it runs on shard k modulo the number of shards |
| Filters.ShardsPartition | docserver/gtest-1.5.0/src/gtest.cc:4154-4156 | every runnable test runs on exactly one shard, others on none |
| Filters.ShardSizeFormula | docserver/gtest-1.5.0/src/gtest.cc:4154-4156 | how many of n runnable tests a shard gets |
| Filters.ShardSizesBalanced | docserver/gtest-1.5.0/src/gtest.cc:4154-4156 | shard sizes differ by at most one |
| TestCases.UnitTest.GetTestCase | docserver/gtest-1.5.0/src/gtest.cc:3884-3917 | returns the test case of that name; a new one is registered after the last of its kind, death tests in front; a known name changes nothing |
| TestCases.UnitTest.AddTestInfo | docserver/gtest-1.5.0/src/gtest-internal-inl.h:699-719 | appends the test to its test case, registered if new, and changes no other |
| TestCases.ShuffleRange | docserver/gtest-1.5.0/src/gtest-internal-inl.h:290-308 | the loop computes the shuffle determined by the random draws |
| TestCases.ShuffledRearranges | docserver/gtest-1.5.0/src/gtest-internal-inl.h:290-308 | a shuffle permutes its range and nothing else |
| TestCases.EveryOrderIsDrawn | docserver/gtest-1.5.0/src/gtest-internal-inl.h:302-307 | every rearrangement of the range is the outcome of some draws |
| TestCases.OrdersAreDrawnOnce | docserver/gtest-1.5.0/src/gtest-internal-inl.h:302-307 | of one choice of draws only, so uniform draws are a uniform shuffle |
| TestCases.UnitTest.ShuffleTests | docserver/gtest-1.5.0/src/gtest.cc:4272-4284 | shuffles each group of test cases and the tests of each test case as drawn, and keeps death tests first |
| TestCases.UnitTest.UnshuffleTests | docserver/gtest-1.5.0/src/gtest.cc:4287-4294 | restores the order of the test cases and of their tests after any number of shuffles |
| TestCases.TestCase.ShuffleTests | docserver/gtest-1.5.0/src/gtest.cc:2458-2460 | shuffles the tests as drawn |
| TestCases.TestCase.UnshuffleTests | docserver/gtest-1.5.0/src/gtest.cc:2463-2467 | restores the order of the tests |
| TestCases.TestCase.Run | docserver/gtest-1.5.0/src/gtest.cc:2406-2421 | runs the tests in the shuffled order of the test case, each once, in order of registration if not shuffled |
| TestCases.UnitTest.RunAll | docserver/gtest-1.5.0/src/gtest.cc:4020-4025 | visits the test cases in their shuffled order and the tests of each in its own; after any shuffles and unshuffles every test of every registered test case runs exactly once, death test cases first |
| TestCases.UnitTest.RunIteration | docserver/gtest-1.5.0/src/gtest.cc:3995-4051 | runs test cases and tests in the orders the draws make of the present ones, or in the present ones without shuffling; everything runs exactly once, death test cases first, and the order of registration is restored |
| TestCases.EveryRunIsDrawn | docserver/gtest-1.5.0/src/gtest.cc:4272-4284 | every order that keeps death test cases first, with every order of tests in each test case, is the one an iteration visits for some draws |
| TestCases.DeathNames | docserver/gtest-1.5.0/src/gtest.cc:151 | a death test case is one whose name ends in DeathTest or has DeathTest/ in it |
| TestCases.AccessorsAgree | docserver/gtest-1.5.0/src/gtest-internal-inl.h:631-643 | the two accessors agree at all positions if and only if the test cases are not shuffled |
| TestCases.AccessorsDisagree | docserver/gtest-1.5.0/src/gtest-internal-inl.h:631-643 | after one shuffle of two test cases the accessors give different ones for position 0 |
| Utf8.WideStringToUtf8 | docserver/gtest-1.5.0/src/gtest.cc:1525-1547 | converts the text character by character; 16 bit: the output decodes by RFC 3629 to what the input means by RFC 2781, and is malformed exactly when it is; 32 bit: it decodes to the input iff that holds only Unicode code points |
| Utf8.EncodesExactlyScalars | docserver/gtest-1.5.0/src/gtest.cc:1456-1487 | one code point decodes to itself iff it is a Unicode scalar value, and to nothing iff it is another number up to 0x1FFFFF |
| Utf8.NotMessages | docserver/gtest-1.5.0/src/gtest.cc:1456-1487 | the bytes for 0x110000 and for 0xD800, which are not UTF-8 |
| Utf8.MessageShowsNumber | docserver/gtest-1.5.0/src/gtest.cc:1480-1484 | beyond 0x1FFFFF the bytes are the message with the number in it |
| Utf8.Utf16Survives | docserver/gtest-1.5.0/src/gtest.cc:1496-1547 | conversion of UTF-16 text preserves its meaning or its being malformed |
| Utf8.PairIsStandard | docserver/gtest-1.5.0/src/gtest.cc:1496-1510 | the masks recognise exactly the surrogate pairs of RFC 2781 and combine them as it says |
| Utf8.HexReadsBack | docserver/gtest-1.5.0/src/gtest.cc:1482 | the hexadecimal number in the message is the code point, without leading zeros |
| CData.OutputXmlCDataSection | docserver/gtest-1.5.0/src/gtest.cc:3190-3207 | reading the output by XML 1.0, sections 2.4 and 2.7, gives back exactly the string |
| CData.SectionReadsBack | docserver/gtest-1.5.0/src/gtest.cc:3194-3206 | the same for what follows the first opening, however `]` and `>` meet the splits |

## Left out

- Sockets, libevent, signals, thread creation, CPU affinity, command-line options and /proc parsing: only their effects appear, as steps that may happen.
- Clocks and timeouts: every call takes an oracle that says which packets have expired.
- Failed allocations and the error branches that fall through after logging (failed accept, fcntl, setsockopt, notify-pipe errors).
- A notify pipe reported readable that is empty: the first read after the event is taken to find a byte.
- Sleeping on the input queues' condition variables: a waiting worker of the model re-tests its condition at any time, which the signal on append and the broadcast before joining make possible.
- The contents of requests and responses, parse_mile_message, the storage engine and the replication thread.
- 32-bit overflow of packet counts and of the sums of response lengths; a read that returns 2^31 bytes or more at once.
- get_out_packet, which nothing calls.
- RecvPath.Receiver.RecvData: a frame length below four is undefined behaviour in the source; the model stops there.
- DocServer steps model mutex-protected sections as single steps; the order in which the shutdown loop picks connections is arbitrary.
- HashTables keeps each chain as a sequence; the linked chains themselves are verified in MileLists. The lookups of HashSet.Add and MileHashMap.Put share their loop with the getters. Null values and Contains/Size of MileHashMap are not modelled.
- The column comparison, hashing, equality and cloning of rows: parameters with laws, one of them that comparing is transitive; the tolerance with which floating-point columns are compared is not.
- MileArrays.MileArray.BuildHeap: claims the heap order only for rows that can all be compared; it always permutes.
- Iterating std::map is modelled as any enumeration of its keys.
- StringMap: string_map_for_each, and null values, which Get cannot tell from absence; copying of keys.
- Regex: strings as long as the address space, for which the repetition counter of the source would wrap.
- Filters: the environment variables of sharding.
- TestCases.UnitTest.RunIteration: takes all tests as selected and global set-up as successful.
- Utf8: byte order of wide characters; CData: characters XML 1.0 does not allow, and its end-of-line normalisation.
- Binlog, vstorage, memory pools, statistics, command-line tools and the remaining query steps.
