# Verification of the poker server, its chat transport and the buffers below it

A Dafny 4.11 model of three layers of the 5-card-poker repository, with proofs that
each does what it is for. `dafny verify dfyconfig.toml` checks everything.

**Buffers (asio).** Memory is one array of bytes, a pointer is an index into it, a buffer
is an address range and a buffer sequence a list of ranges. Everything is stated over the
*flattening* of a sequence, the list of addresses it covers. The five `buffer_copy`
overloads are loops over that memory, proved against one description of the memory they
leave behind (`BufferCopy.Copied`), which holds even when target buffers overlap one
another; the bytes read and the bytes written may not overlap, because the copy is `memcpy`. The
random-access `buffers_iterator` is a class whose jumps are proved equal to single steps.
`basic_streambuf` is a class over an array that is compacted in place and regrown;
`dynamic_string_buffer` and `dynamic_vector_buffer`, the same code twice, are one class
over a `seq`. Both queues are proved to follow one reference queue, hence to be
indistinguishable.

**Chat transport.** A message is a fixed array with a four-character decimal length in
front. The read loop, the write queue (one class for client and server, whose code is the
same) and the room are classes; their handlers are atomic because one thread runs them.
Each method is proved to perform a step of a state machine over values, and safety is
proved over all runs of those machines, up to what a client can read of the room's history.

**Poker table.** Deck, insertion sort, the ranking decision tree, winner selection, and the join
/ start / bet / check handling; `TableSteps` says what each message changes. A hand's worth
(`HandValue.Value`) is defined over the multiset of its cards, from counts of numbers and suits;
the server's code, which works on a sorted vector, is proved to compute it, and the order it
gives hands is compared with the order by category and deciding rank. Ranks are whole hundredths
(9.05 is 905).

Conventions: a class method states its whole new state through a snapshot function
(`State()`); what is promised about that state is proved as lemmas on the snapshot.

## Where the code does less than it seems to

* `commit` and `consume` pass a `size_t` through `int`. `commit` does what it documents exactly
  when it moves at most 2^31 - 1 bytes; beyond that, in either call, a position can leave the vector
  (`DynamicBuffer.HugeCommitDiffers`, `Streambuf.HugeConsume`).
* `consume` compares `gptr() + n` with `pptr()` as pointers, and that sum wraps around. A request
  that wraps is not cut down to the size: `consume` of the largest `size_t`, which documents
  itself as "everything", brings a consumed byte back (`Streambuf.WrappingConsume`). The exact
  condition is `Streambuf.ConsumeFits`: a request that does not wrap moves at most 2^31 - 1 bytes,
  or one that wraps has the size in its low 32 bits by chance. All runs are taken under it.
* A `prepare` that fails has already moved bytes but not the positions, so contents can be
  lost (`Streambuf.FailedReserveLosesData`). Exactly when they are kept is proved, and the
  first-in-first-out theorem excludes only the failures that spoil them.
* A full house with a pair of aces is ranked as the best of all full houses
  (`HandOrder.TwosBeatKings`). Exactly which comparisons go wrong is `HandOrder.OrderExact`.
* A start in mid-hand forgets the pot (`TableRuns.MidHandStartLosesPot`), and a bet's reported
  balance is believed. The exact gain or loss of every step is proved, and conservation exactly
  for steps that avoid both. The client's own chip buttons break the second condition.
* The five cards shown for a seat stay those of the deal it joined under. They are the cards
  ranked exactly while the present deal has the same block for that seat
  (`TableDeals.ShownIsRanked`); `TableDeals.ShownDiffersAfterSettlement` is a run where it has not.

## Assumptions

* The turn index and the pot start at 0; the server leaves them uninitialised
  (`cse3310_sp2020/src/chat_server.cpp:620-622`). The initial minimum bet is arbitrary.
* A shuffle is an arbitrary arrangement of the 52 cards.
* A bet or check with no player seated reads past the end of a vector, so it is not a possible
  event of the model.
* A streambuf's vector, with the end of it, lies inside a 64-bit address space, at whatever
  address the allocator picks each time; limits and request sizes are 64-bit.
* An iterator past the last byte keeps a stale or an empty copy of a buffer depending on how it
  got there. That copy is never read, and the model compares buffer index, offset and position.
* Constructing a C string from a received body may run past the array when the body has no NUL;
  the text is cut to the body length afterwards, and the model does the same within the array.

## Model

| member | source | states |
|---|---|---|
| Buffers.Buffer.Plus | cse3310_sp2020/asio-1.12.2/include/asio/buffer.hpp:138-144 | moving the start never passes the end: start plus size is unchanged, and the size shrinks by n or to nothing |
| Buffers.Buffer.Limit | cse3310_sp2020/asio-1.12.2/include/asio/buffer.hpp:901-910 | the limited buffer has the same start and a size that is the smaller of the two bounds |
| Buffers.BufferSize | cse3310_sp2020/asio-1.12.2/include/asio/buffer.hpp:507-521 | the summing loop returns the length of the flattened sequence |
| BufferCopy.CopyBuffer | cse3310_sp2020/asio-1.12.2/include/asio/buffer.hpp:1880-1890 | `buffer_copy_1` copies the smaller of the two sizes, storing exactly those source bytes at the target addresses and changing no other byte |
| BufferCopy.CopyOneOne | cse3310_sp2020/asio-1.12.2/include/asio/buffer.hpp:1892-1898 | count and memory are those of `Copied` on the two one-element sequences, the description the many-to-many loop meets too |
| BufferCopy.CopyOneOneLimit | cse3310_sp2020/asio-1.12.2/include/asio/buffer.hpp:1900-1908 | the same with a byte limit |
| BufferCopy.CopyOneMany | cse3310_sp2020/asio-1.12.2/include/asio/buffer.hpp:1910-1931 | one target, many sources: refines the many-to-many description for any limit, skipping empty sources |
| BufferCopy.CopyManyOne | cse3310_sp2020/asio-1.12.2/include/asio/buffer.hpp:1933-1954 | many targets, one source: refines the many-to-many description for any limit |
| BufferCopy.CopyManyMany | cse3310_sp2020/asio-1.12.2/include/asio/buffer.hpp:1956-1998 | terminates for any two lists of buffers, returns the smaller of the two total sizes, and leaves the memory `Copied` describes |
| BufferCopy.CopyManyManyLimit | cse3310_sp2020/asio-1.12.2/include/asio/buffer.hpp:2000-2046 | the same with a byte limit, which may stop in the middle of both buffers |
| BufferCopy.CopiedMeaning | cse3310_sp2020/asio-1.12.2/include/asio/buffer.hpp:1850-1876 | for targets that do not overlap: the copied prefix of the flattened target equals that prefix of the flattened source, the rest of the target and all other memory are unchanged |
| BufferCopy.CopiedKeepsSource | cse3310_sp2020/asio-1.12.2/include/asio/buffer.hpp:1850-1876 | the source bytes survive the copy |
| BufferCopy.CopiedLinearises | cse3310_sp2020/asio-1.12.2/include/asio/buffer.hpp:755-762 | copying a sequence into one buffer of `buffer_size` bytes leaves the flattened source there |
| BuffersIterator.BuffersIterator.Begin | cse3310_sp2020/asio-1.12.2/include/asio/buffers_iterator.hpp:167-184 | the begin iterator stands at the first non-empty buffer, offset 0, position 0 |
| BuffersIterator.BuffersIterator.End | cse3310_sp2020/asio-1.12.2/include/asio/buffers_iterator.hpp:187-203 | the end iterator stands past the last buffer at the total size |
| BuffersIterator.BuffersIterator.Increment | cse3310_sp2020/asio-1.12.2/include/asio/buffers_iterator.hpp:354-374 | one proper step forward, over any run of empty buffers |
| BuffersIterator.BuffersIterator.Decrement | cse3310_sp2020/asio-1.12.2/include/asio/buffers_iterator.hpp:377-404 | one proper step back, over any run of empty buffers |
| BuffersIterator.BuffersIterator.Advance | cse3310_sp2020/asio-1.12.2/include/asio/buffers_iterator.hpp:407-485 | a jump of n lands in the same buffer, offset and position as n increments, or -n decrements |
| BuffersIterator.BuffersIterator.AdvanceBack | cse3310_sp2020/asio-1.12.2/include/asio/buffers_iterator.hpp:443-484 | the two nested backward loops terminate although empty buffers are skipped, at the right position |
| BuffersIterator.BuffersIterator.Dereference | cse3310_sp2020/asio-1.12.2/include/asio/buffers_iterator.hpp:341-345 | the byte read is the one at the iterator's position in the flattened sequence |
| BuffersIterator.BuffersIterator.Element | cse3310_sp2020/asio-1.12.2/include/asio/buffers_iterator.hpp:218-223 | indexing reads the byte that many positions away |
| BuffersIterator.BuffersIterator.DistanceTo | cse3310_sp2020/asio-1.12.2/include/asio/buffers_iterator.hpp:348-351 | equality by position is equality of buffer, offset and position |
| BuffersIterator.PositionDetermines | cse3310_sp2020/asio-1.12.2/include/asio/buffers_iterator.hpp:348-351 | two iterators at one position stand at the same place: the comparison by position loses nothing |
| BuffersIterator.StepsUndo | cse3310_sp2020/asio-1.12.2/include/asio/buffers_iterator.hpp:354-404 | increment and decrement undo each other |
| BuffersIterator.RunsUndo | cse3310_sp2020/asio-1.12.2/include/asio/buffers_iterator.hpp:354-485 | any number of steps one way is undone by as many the other way |
| BuffersIterator.Walk | cse3310_sp2020/asio-1.12.2/include/asio/buffers_iterator.hpp:167-203 | walking from begin to end takes `buffer_size` steps and reads the flattened bytes in order |
| Streambuf.BasicStreambuf.constructor | cse3310_sp2020/asio-1.12.2/include/asio/basic_streambuf.hpp:131-141 | a new streambuf is empty, with up to 128 bytes of room within the limit |
| Streambuf.InitRoom | cse3310_sp2020/asio-1.12.2/include/asio/basic_streambuf.hpp:131-141 | the room is 128 bytes, or the limit where that is less |
| Streambuf.BasicStreambuf.MoveToFront | cse3310_sp2020/asio-1.12.2/include/asio/basic_streambuf.hpp:322-326 | the overlapping in-place move puts the old bytes at the front and leaves the rest |
| Streambuf.BasicStreambuf.ReserveSpace | cse3310_sp2020/asio-1.12.2/include/asio/basic_streambuf.hpp:308-346 | the whole state after `reserve`, in its three successful branches and the failing one |
| Streambuf.ReserveKeeps | cse3310_sp2020/asio-1.12.2/include/asio/basic_streambuf.hpp:308-346 | `reserve(n)` fails exactly when size + n exceeds the limit; otherwise contents are kept and n bytes fit |
| Streambuf.ReserveShape | cse3310_sp2020/asio-1.12.2/include/asio/basic_streambuf.hpp:308-346 | room enough changes nothing; otherwise the get area moves to the front with its end at the put position, and the vector grows only if that is not enough, to exactly n bytes of room; a failing call leaves every position alone |
| Streambuf.FailedReserveContents | cse3310_sp2020/asio-1.12.2/include/asio/basic_streambuf.hpp:322-341 | a failed `prepare` keeps the contents exactly when they repeat with period gptr; always when nothing was consumed or the get area fits before its old start |
| Streambuf.FailedReserveLosesData | cse3310_sp2020/asio-1.12.2/include/asio/basic_streambuf.hpp:322-341 | a concrete failed `prepare` that turns contents [2, 3] into [3, 3] |
| Streambuf.BasicStreambuf.Prepare | cse3310_sp2020/asio-1.12.2/include/asio/basic_streambuf.hpp:214-219 | fails exactly beyond the limit; on success the contents are unchanged and the output sequence lies inside the vector |
| Streambuf.BasicStreambuf.CommitBytes | cse3310_sp2020/asio-1.12.2/include/asio/basic_streambuf.hpp:233-238 | the whole state after `commit`, the conversion to int included |
| Streambuf.CommitAppends | cse3310_sp2020/asio-1.12.2/include/asio/basic_streambuf.hpp:233-238 | `commit` appends the clamped count of prepared bytes if and only if that count fits in an int |
| Streambuf.BasicStreambuf.ConsumeBytes | cse3310_sp2020/asio-1.12.2/include/asio/basic_streambuf.hpp:247-254 | the whole state after `consume`, with the pointer sum that may wrap around and the conversion to int |
| Streambuf.ToIntRange | cse3310_sp2020/asio-1.12.2/include/asio/basic_streambuf.hpp:233-254 | the conversion to int gives the number between -2^31 and 2^31 - 1 that is congruent modulo 2^32 |
| Streambuf.ConsumeRemoves | cse3310_sp2020/asio-1.12.2/include/asio/basic_streambuf.hpp:247-254 | `consume` removes n bytes, or all there are, if and only if the request does not wrap and at most 2^31 - 1 bytes move, or it wraps and its low 32 bits happen to be the size |
| Streambuf.GetAreaSynced | cse3310_sp2020/asio-1.12.2/include/asio/basic_streambuf.hpp:233-274 | after a commit, a consume or a peek at a byte the get area ends at the put position |
| Streambuf.WrappingConsume | cse3310_sp2020/asio-1.12.2/include/asio/basic_streambuf.hpp:247-254 | a request of 2^64 - 1 bytes turns contents [2, 3] into [1, 2, 3], or puts the get position before the vector |
| Streambuf.HugeConsume | cse3310_sp2020/asio-1.12.2/include/asio/basic_streambuf.hpp:247-254 | consuming 2^31 bytes moves the get position 2^31 below the vector |
| Streambuf.BasicStreambuf.UnderflowByte | cse3310_sp2020/asio-1.12.2/include/asio/basic_streambuf.hpp:263-274 | peeks the first byte of the contents, or end of file when empty |
| Streambuf.BasicStreambuf.OverflowByte | cse3310_sp2020/asio-1.12.2/include/asio/basic_streambuf.hpp:283-306 | the whole state after `overflow`, including the choice of how much to reserve |
| Streambuf.OverflowAppends | cse3310_sp2020/asio-1.12.2/include/asio/basic_streambuf.hpp:283-306 | overflow of a character fails exactly when size equals the limit, and then the state is untouched; otherwise the character is appended |
| Streambuf.OverflowRoom | cse3310_sp2020/asio-1.12.2/include/asio/basic_streambuf.hpp:283-306 | a full put area is given room for 128 characters, or all the limit allows, or what consumed bytes free, if that is more; otherwise nothing is reserved |
| Streambuf.ReadSizeIs | cse3310_sp2020/asio-1.12.2/include/asio/basic_streambuf.hpp:353-359 | the suggestion is the greatest k within the caller's bound and the limit that is at most 512 or fits the capacity |
| Streambuf.ReadSizeFits | cse3310_sp2020/asio-1.12.2/include/asio/basic_streambuf.hpp:353-359 | preparing what `read_size_helper` returns never fails, for any capacity, and it is positive when there is room and demand |
| StreambufRuns.Run | cse3310_sp2020/asio-1.12.2/include/asio/basic_streambuf.hpp:60-69 | in every state of every run of calls within those conditions, failed ones included, 0 <= gptr <= egptr <= pptr <= epptr <= max_size |
| StreambufRuns.FirstInFirstOut | cse3310_sp2020/asio-1.12.2/include/asio/basic_streambuf.hpp:214-306 | over any run in which no failed prepare spoils the contents, all bytes added in order are all bytes taken in order followed by the contents |
| StreambufRuns.StepBalances | cse3310_sp2020/asio-1.12.2/include/asio/basic_streambuf.hpp:214-346 | a single call keeps those books if and only if it is not a failing prepare on contents that do not repeat with period gptr |
| StreambufRuns.NeverBeyondLimit | cse3310_sp2020/asio-1.12.2/include/asio/basic_streambuf.hpp:60-69 | size never exceeds the maximum size |
| StreambufRuns.PeekIsNext | cse3310_sp2020/asio-1.12.2/include/asio/basic_streambuf.hpp:263-274 | `underflow` shows the byte that `consume` takes next |
| DynamicBuffer.DynamicBuffer.Prepare | cse3310_sp2020/asio-1.12.2/include/asio/buffer.hpp:1592-1603 | fails exactly when size + n exceeds the limit (also when existing text already exceeds it); otherwise n bytes follow the kept input sequence |
| DynamicBuffer.DynamicBuffer.Commit | cse3310_sp2020/asio-1.12.2/include/asio/buffer.hpp:1617-1621 | the input sequence grows by the clamped count of prepared bytes and the remainder is dropped |
| DynamicBuffer.DynamicBuffer.Consume | cse3310_sp2020/asio-1.12.2/include/asio/buffer.hpp:1781-1786 | the clamped count of bytes leaves the front |
| DynamicBuffer.StreamsStep | cse3310_sp2020/asio-1.12.2/include/asio/basic_streambuf.hpp:214-254 | every legal operation of a streambuf follows the reference queue |
| DynamicBuffer.AdaptsStep | cse3310_sp2020/asio-1.12.2/include/asio/buffer.hpp:1743-1786 | every legal operation of a dynamic buffer follows the reference queue |
| DynamicBuffer.SameObservations | cse3310_sp2020/asio-1.12.2/include/asio/buffer.hpp:1592-1635 | after every legal run of prepare, write, commit and consume, with consume requests inside `ConsumeFits`, streambuf and dynamic buffer show the same data and size |
| DynamicBuffer.HugeCommitDiffers | cse3310_sp2020/asio-1.12.2/include/asio/basic_streambuf.hpp:233-238 | a commit of 2^31 bytes tells the two apart |
| DynamicBuffer.WrappingConsumeDiffers | cse3310_sp2020/asio-1.12.2/include/asio/basic_streambuf.hpp:247-254 | so does consuming everything by the largest request |
| ChatMessage.FormatRoundTrip | cse3310_sp2020/src/chat_message.hpp:124-129 | a number printed with four-column padding is read back as itself |
| ChatMessage.HeaderRoundTrip | cse3310_sp2020/src/chat_message.hpp:107-129 | every body length up to 4096 has a four-byte header that decodes to it |
| ChatMessage.DecimalWidth | cse3310_sp2020/src/chat_message.hpp:124-129 | four columns are enough exactly up to 9999, so the clamp to 4096 keeps the header four bytes long |
| ChatMessage.HeaderBytes | cse3310_sp2020/src/chat_message.hpp:124-129 | for any length up to 9999 the four bytes are its digits for thousands, hundreds, tens and ones, with blanks in place of leading noughts |
| ChatMessage.FrameLayout | cse3310_sp2020/src/chat_message.hpp:124-129 | a frame is those four bytes and then the body |
| ChatMessage.AtoiReads | cse3310_sp2020/src/chat_message.hpp:107-112 | a number is read after white space and an optional sign, up to the first character that is no digit; no digits read as zero |
| ChatMessage.DecodeLength | cse3310_sp2020/src/chat_message.hpp:107-122 | any accepted length is at most 4096, for arbitrary header bytes |
| ChatMessage.AcceptedLengths | cse3310_sp2020/src/chat_message.hpp:107-122 | a printed number is accepted exactly up to 4096, a negative one never |
| ChatMessage.ChatMessage.SetBodyLength | cse3310_sp2020/src/chat_message.hpp:100-105 | the stored length is clamped to 4096 |
| ChatMessage.ChatMessage.EncodeHeader | cse3310_sp2020/src/chat_message.hpp:124-129 | the header bytes in the array are the decimal digits at the right and blanks to their left, byte by byte; everything behind them is kept |
| ChatMessage.ChatMessage.DecodeHeader | cse3310_sp2020/src/chat_message.hpp:107-122 | accepts exactly lengths 0 to 4096, negative ones becoming enormous; resets the length otherwise |
| ChatMessage.ChatMessage.Text | cse3310_sp2020/src/chat_client.cpp:108-109 | the text is the body up to its first NUL, however far the C string runs on |
| ChatMessage.Compose | cse3310_sp2020/src/chat_server.cpp:650-661 | the message built for a text is the frame of its body: cut at the first NUL and at 4096 bytes |
| ChatMessage.BodyIsCut | cse3310_sp2020/src/chat_server.cpp:650-661 | the body of a text is what stands before its first NUL, at most 4096 bytes of it |
| Framing.ReadLoop | cse3310_sp2020/src/chat_client.cpp:82-110 | the read loop over one reused message object reads a stream as `ReadFrames` describes, in place |
| Framing.RoundTrip | cse3310_sp2020/src/chat_client.cpp:82-110 | frames followed by anything are read back as their bodies, and reading goes on with what follows |
| Framing.RoundTripExact | cse3310_sp2020/src/chat_message.hpp:100-129 | for texts without NUL the list comes back, each text cut to its first 4096 bytes |
| Framing.ReadPayload | cse3310_sp2020/src/chat_client.cpp:98-110 | any payload of up to 4096 bytes, NULs included, is consumed whole and shown up to its first NUL |
| Framing.BadHeaderEnds | cse3310_sp2020/src/chat_client.cpp:82-97 | a length below 0 or above 4096 ends the reading for good, after everything before it has been handed on |
| Framing.ReadInPieces | cse3310_sp2020/src/chat_server.cpp:673-689 | the result does not depend on how the stream is cut into pieces; a bad header ends it for good |
| Framing.TextsBounded | cse3310_sp2020/src/chat_message.hpp:107-122 | no stream, however malformed, yields a text over 4096 bytes |
| WriteQueue.Connection.Deliver | cse3310_sp2020/src/chat_server.cpp:662-670 | the new state after queueing: a write starts only when the queue was empty |
| WriteQueue.Connection.WriteCompleted | cse3310_sp2020/src/chat_client.cpp:368-388 | the new state after a completion: pop and write the next, or stop on an error |
| WriteQueue.EveryRun | cse3310_sp2020/src/chat_client.cpp:50-62 | in every run at most one write is outstanding, for the front of the queue, outstanding before an error exactly when the queue is not empty; sent plus queued is submitted |
| WriteQueue.SilentAfterError | cse3310_sp2020/src/chat_server.cpp:950-971 | after a write error nothing more is ever sent |
| WriteQueue.Drains | cse3310_sp2020/src/chat_server.cpp:950-971 | without errors the queue can always be written out, in order |
| ChatRoom.ChatRoom.JoinRoom | cse3310_sp2020/src/chat_server.cpp:568-576 | a new session becomes a member whose share of the history starts now; what that means is `JoinerIsServed` |
| ChatRoom.ChatRoom.DeliverAll | cse3310_sp2020/src/chat_server.cpp:584-593 | every member's connection gets the message, the recent list is trimmed, nothing else changes |
| ChatRoom.ChatRoom.OnWriteCompleted | cse3310_sp2020/src/chat_server.cpp:956-970 | a completion steps the session's queue; an error also makes it leave |
| ChatRoom.ChatRoom.OnReadError | cse3310_sp2020/src/chat_server.cpp:678-688 | a read error or bad header makes the session leave, harmlessly if it has left |
| ChatRoom.StepKeeps | cse3310_sp2020/src/chat_server.cpp:568-593 | every event keeps the room invariant: members, contiguous shares of the history, and the last hundred messages |
| ChatRoom.EveryRun | cse3310_sp2020/src/chat_server.cpp:568-593 | every run keeps it |
| ChatRoom.TotalOrder | cse3310_sp2020/src/chat_server.cpp:584-593 | what two sessions were both present for appears contiguously and in the same order in what each was given |
| ChatRoom.JoinerIsServed | cse3310_sp2020/src/chat_server.cpp:568-593 | after a join and any run in which the session neither leaves nor fails, it is a member and what it was given is exactly what was broadcast since the join |
| ChatRoom.JoinThenDeliver | cse3310_sp2020/src/chat_server.cpp:568-593 | the first message after a join is that session's whole share, and is being written |
| ChatRoom.LeaverIsOut | cse3310_sp2020/src/chat_server.cpp:578-581 | a departure or failed write removes that session from the members and changes no other session, nor the history |
| ChatRoom.LeaverStaysOut | cse3310_sp2020/src/chat_server.cpp:578-593 | a session that is out is given nothing more in any run |
| ChatRoom.HistoryGrows | cse3310_sp2020/src/chat_server.cpp:584-593 | the history of a run is everything broadcast in it, in order |
| ChatRoom.CompletionSends | cse3310_sp2020/src/chat_server.cpp:950-971 | a successful completion moves one message from the queue to what was sent, starts the next write, and changes nothing else in the room |
| Broadcast.ClientsReadHistory | cse3310_sp2020/src/chat_server.cpp:650-670 | end to end: from whatever part of its stream has arrived, a client has read texts of the room's history without gap or reordering, from its session's join on |
| Cards.BuildDeck | cse3310_sp2020/src/chat_server.cpp:62-72 | the two loops build the 52-card deck |
| Cards.DeckOrder | cse3310_sp2020/src/chat_server.cpp:62-72 | the deck runs suit by suit from ace to king, thirteen cards each |
| Cards.ShuffleDistinct | cse3310_sp2020/src/chat_server.cpp:74-81 | any shuffle of it holds 52 different cards |
| Cards.SortBlock | cse3310_sp2020/src/chat_server.cpp:338-362 | the insertion loop, for a block of any length, yields a sorted permutation of it |
| RankCode.IsStraight | cse3310_sp2020/src/chat_server.cpp:100-119 | true exactly for five consecutive numbers or ten to ace |
| RankCode.HighPairs | cse3310_sp2020/src/chat_server.cpp:121-145 | the size of the largest group of equal numbers |
| HandRank.LargestGroup | cse3310_sp2020/src/chat_server.cpp:121-145 | that size is attained and not exceeded |
| RankCode.RankVal | cse3310_sp2020/src/chat_server.cpp:147-334 | on every sorted hand of five different deck cards the decision tree computes `Value`, a function of the multiset of cards alone |
| RankCode.RankThree | cse3310_sp2020/src/chat_server.cpp:187-254 | the full-house and three-of-a-kind branch |
| RankCode.RankTwo | cse3310_sp2020/src/chat_server.cpp:272-328 | the two-pair and one-pair branches |
| HandRank.Shapes | cse3310_sp2020/src/chat_server.cpp:147-334 | flush, straight and group patterns of a sorted vector are the standard notions counted over the cards |
| HandValue.CategoryDecides | cse3310_sp2020/src/chat_server.cpp:147-334 | the whole-number part is the standard category and the fraction at most 0.14, so a higher category always beats a lower one |
| HandOrder.CategoryIs | cse3310_sp2020/src/chat_server.cpp:147-334 | each of the ten categories is told by flush, straight and groups alone, whatever was tested before it |
| HandOrder.KeyIs | cse3310_sp2020/src/chat_server.cpp:147-334 | the deciding rank is the top of a straight, otherwise the best number, ace high, among those that occur most often |
| HandOrder.FractionInRange | cse3310_sp2020/src/chat_server.cpp:147-334 | the fraction lies within 0.01 to 0.14, and a royal flush has none |
| HandValue.ValueIsKeyed | cse3310_sp2020/src/chat_server.cpp:161-164 | the number is category plus deciding rank exactly when the hand is no royal flush and no full house with a pair of aces |
| HandRank.ValueFullHouse | cse3310_sp2020/src/chat_server.cpp:199-237 | a full house with aces in it scores 7.14 whatever its three are, otherwise its three decide |
| HandOrder.OrderExact | cse3310_sp2020/src/chat_server.cpp:187-254 | two hands compare as (category, deciding rank) if and only if they are not both full houses, or neither has a pair of aces, or the one that has is really better, or both have and tie |
| HandOrder.OrderKept | cse3310_sp2020/src/chat_server.cpp:147-334 | hands without such a full house compare by category and deciding rank |
| HandOrder.TwosBeatKings | cse3310_sp2020/src/chat_server.cpp:228-236 | three twos with a pair of aces score 7.14 against 7.13 for three kings with queens |
| Winner.DetermineWinner | cse3310_sp2020/src/chat_server.cpp:336-495 | the winner is in range, no seat beats it, and no later seat equals it |
| Winner.WinnerIgnoresOrder | cse3310_sp2020/src/chat_server.cpp:336-495 | who wins depends only on which cards each seat holds, not on their order |
| Winner.WinnerIsRight | cse3310_sp2020/src/chat_server.cpp:485-494 | unless a seat holds a full house with a pair of aces, no seat is above the winner by category and deciding rank, and every later seat is below it |
| PokerTable.PokerRoom.NewDeal | cse3310_sp2020/src/chat_server.cpp:89-98 | the deal is the first 25 cards of the shuffle |
| PokerTable.PokerRoom.DistributeCards | cse3310_sp2020/src/chat_server.cpp:594-606 | every seat's hand grows by its block of the deal, every index in bounds |
| PokerTable.PokerRoom.JoinGame | cse3310_sp2020/src/chat_server.cpp:716-746 | a join adds a seat and deals to all, unless four are taken, as `JoinTakesSeat` spells out |
| PokerTable.PokerRoom.StartGame | cse3310_sp2020/src/chat_server.cpp:753-785 | a start with two or more seats sets the pot and takes the ante, as `StartTakesAnte` spells out |
| PokerTable.PokerRoom.PlaceBet | cse3310_sp2020/src/chat_server.cpp:789-850 | the whole table after a bet, plain (`BetIsPlaced`) or settling (`BetSettlesHand`) |
| PokerTable.PokerRoom.NextPlayer | cse3310_sp2020/src/chat_server.cpp:607-615 | the turn goes to the next index modulo the number of seats |
| PokerTable.PokerRoom.CheckTurn | cse3310_sp2020/src/chat_server.cpp:888-891 | a check only moves the turn |
| TableSteps.FreshTable | cse3310_sp2020/src/chat_server.cpp:89-98 | an empty table with the first 25 cards of the shuffle, one for one |
| TableSteps.JoinTakesSeat | cse3310_sp2020/src/chat_server.cpp:716-722 | with fewer than four seats the last seat is new, with the uuid and balance of the message and its five cards; other seats keep uuid and balance and get five more cards; nothing else changes, and at four seats nothing at all |
| TableSteps.StartTakesAnte | cse3310_sp2020/src/chat_server.cpp:753-769 | with two or more seats each balance pays ten and the pot is ten per seat; nothing else changes, and otherwise nothing at all |
| TableSteps.CheckPassesTurn | cse3310_sp2020/src/chat_server.cpp:888-891 | the turn is (turn + 1) mod n and nothing else changes |
| TableSteps.BetIsPlaced | cse3310_sp2020/src/chat_server.cpp:831-850 | a plain bet: seats with the uuid take the reported balance, the pot grows by the amount for each of them, the amount becomes the minimum bet if there is one, round and turn advance, cards and hands stay |
| TableSteps.BetReachesPot | cse3310_sp2020/src/chat_server.cpp:837-850 | with different uuids exactly that seat changes and the pot gains exactly its amount; an unknown uuid only passes the turn |
| TableSteps.BetSettlesHand | cse3310_sp2020/src/chat_server.cpp:791-815 | a settling bet pays the pot to the last best seat and takes ten from every seat, deals the first 25 cards of the shuffle, and keeps turn, uuids and hands |
| TableSteps.SeatsStay | cse3310_sp2020/src/chat_server.cpp:716-850 | in every run seats keep their place and uuid, and there are at most four |
| TableRuns.Run | cse3310_sp2020/src/chat_server.cpp:716-850 | in every run the turn index is in range and `round` stays below three per seat |
| TableRuns.StepChips | cse3310_sp2020/src/chat_server.cpp:716-850 | the exact change of balances plus pot in every step; settlements lose nothing |
| TableRuns.RunChips | cse3310_sp2020/src/chat_server.cpp:716-850 | the exact accounts of any run |
| TableRuns.ConservedIffHonest | cse3310_sp2020/src/chat_server.cpp:753-848 | with different uuids a step keeps all chips exactly when a start finds an empty pot and a bet comes out of the reported balance |
| TableRuns.ClientBet | cse3310_sp2020/src/player.cpp:238-335 | a client's bet carries the minimum bet plus the chips pressed, and a balance lower by that and by the chips pressed once more |
| TableRuns.MidHandStartLosesPot | cse3310_sp2020/src/chat_server.cpp:753-769 | a start with 30 chips in the pot leaves 170 of 200 on the table |
| TableRuns.ChipsConserved | cse3310_sp2020/src/chat_server.cpp:716-848 | over an honest run balances and pot add up to the buy-ins |
| TableRuns.ChipButtonsLoseChips | cse3310_sp2020/src/player.cpp:238-335 | the client's own bet is honest exactly when no chip button was used; otherwise the chips pressed vanish |
| TableRuns.SettlementPaysBest | cse3310_sp2020/src/chat_server.cpp:793-815 | at every settlement the pot goes to the last of the best seats and every balance pays the ante |
| TableTurns.AfterBets | cse3310_sp2020/src/chat_server.cpp:791-850 | round and turn after any number of bets, in closed form |
| TableTurns.AfterMoves | cse3310_sp2020/src/chat_server.cpp:607-615 | after any bets, checks and starts in any order: the round counts bets only, modulo 3n, and the turn has moved once per bet and check, less one per settlement |
| TableTurns.OpeningSeat | cse3310_sp2020/src/chat_server.cpp:791-850 | a hand is exactly 3n bets, and after h hands the opening seat is (start - h) mod n |
| TableTurns.ThreeTurnsEach | cse3310_sp2020/src/chat_server.cpp:607-615 | within a hand every seat is current exactly three times |
| TableDeals.HandsInRun | cse3310_sp2020/src/chat_server.cpp:594-606 | in every run entry k of seat i is card 5i + k mod 5 of the deal in force at join i + k / 5, and seat i of n has 5(n - i) entries |
| TableDeals.ShownIsRanked | cse3310_sp2020/src/chat_server.cpp:718-741 | in every run the five cards shown for a seat are the five ranked for it if and only if its block of the deal it joined under is its block of the present deal; always before the first settlement |
| TableDeals.ShownSinceJoin | cse3310_sp2020/src/chat_server.cpp:594-606 | a seat that joins at any time is shown its block of that deal for good, and is ranked on it as long as nothing has been settled since its join |
| TableDeals.HandsGrow | cse3310_sp2020/src/chat_server.cpp:594-606 | in any run a hand only grows at its end |
| TableDeals.NoCardTwice | cse3310_sp2020/src/chat_server.cpp:594-606 | no card is held by two seats, for any shuffle, as long as all joined under one deal, which is so until the first settlement |
| TableDeals.SettlementKeepsHands | cse3310_sp2020/src/chat_server.cpp:795-801 | a settlement replaces the ranked cards and keeps the hands: shown and ranked agree afterwards if and only if the new deal repeats the seat's block of the deal it joined under |
| TableDeals.ShownDiffersAfterSettlement | cse3310_sp2020/src/chat_server.cpp:801-829 | a run of one join and three bets after which the ace of diamonds is shown where the king of clubs is ranked |

## Left out

* Windows, labels, buttons, sounds and images, except for the numbers a bet message carries.
* JSON text, uuid generation, tracing and the `main` functions: messages arrive as their fields, and a malformed JSON text, which ends the server by an exception, is not modelled.
* Sockets, resolvers, timers and the io_context: a completion handler is an event, and a write either completes whole or fails.
* Swap, all-in and fold, which do nothing; the server's unused `write`; the replies the server sends about the table.
* Player names, and the swap number, which are only stored or echoed.
* 32-bit overflow of balances and pot, and of the `size_t` sum of sizes for buffers that overlap: balances, pot and those sums are unbounded here.
* The capacity of the vectors, beyond being at least their size; buffer debugging checks; `basic_streambuf_ref`, which only forwards.
* The default limit of the one-to-many and many-to-one copies (the largest `size_t`) is a limit no buffer reaches; callers pass it.
* The order in which a room's set of sessions is visited: any order gives the same state.
* The two structures that `decode_header` also copies out of the array, which nothing reads.
- RankCode.RankVal: stated for the sorted hands of five different deck cards that reach it, not for arbitrary vectors, because duplicated cards cannot be dealt.
- HandValue.ValueIsKeyed: the fraction is not claimed to break ties between equal categories fully, because the code compares no kickers.
