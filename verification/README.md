# Verified model of the media server's concurrent core

A Dafny model of the parts of a UPnP media server that carry unbounded properties, and the proofs of
these properties. `dafny verify dfyconfig.toml` checks everything.

| file | what it models |
|---|---|
| `RingBuffer.dfy`, `BufferHelper.dfy` | the circular buffer of the streaming handlers and its reader |
| `BufferedIO.dfy` | the chunked handler: its filler, reader and seeks as an interleaved protocol, and its locked sections on a real array |
| `CurlIO.dfy` | the handler fed by libcurl: a ring that is a window on a remote resource |
| `ProfileParser.dfy` | the buffer options of a transcoding profile |
| `Strings.dfy`, `Dictionaries.dfy`, `CdsResource.dfy` | percent-encoding, splitting, decimal numbers, the two dictionary formats, serialised resources |
| `ResourceUrls.dfy`, `FileRequest.dfy` | the rendering of resource URLs and the requests that come back with them |
| `Autoscan.dfy` | the registry of autoscan directories, with the timer parameters that copies share |
| `Scheduler.dfy`, `BaseQueue.dfy` | the two task queues, invalidation, and the circular queue below them |
| `Removal.dfy` | the removal of a container while rescans run |
| `Waves.dfy`, `Rescan.dfy` | task count and baseline of recursive rescans; one rescan of a directory |
| `UrlCache.dfy` | the bounded cache of resolved URLs |
| `Watches.dfy` | the inotify watches and their chain of parent descriptors |
| `Arrays.dfy`, `Wrappers.dfy` | removal from unordered arrays; option and result types |

How the model is made. Objects whose methods change them are classes with the source's fields; each
method is tied to a function on values, and the theorems are about these functions. The two threads of a
streaming handler, the clients and the worker of the content manager are state machines: a step is a
critical section, or one byte of an unlocked copy, and the theorems speak about every run. Time, the
kernel, libcurl, the file system and the database are parameters of the steps, with the assumptions
that the lemmas state.

What turned out not to hold as one would hope, with the exact condition and what shows it:

- The seek code of the chunked handler: a seek that the source refuses closes the initial-fill gate although
  the ring is full, and the filler sleeps behind the gate (`BufferedIO.NoStallNext`, `FailedSeekStalls`).
  The server does not reach this code, because seeking is disabled in this handler
  (`src/buffered_io_handler.cc:50-51`, `src/io_handler_buffer_helper.cc:152-153`); as it is, the handler never
  stalls (`BufferedIO.NeverStallsWithoutSeeks`).
- A seek that reaches threadProc's own seek block while bytes are buffered moves the position but not
  the ring (`CurlIO.LoopHeadKeepsInv`, `LateSeekMisaligns`). A seek that empties the ring under a waiting
  callback lets it sleep again without a wake-up (`CurlIO.WakeNext`, `SeekLosesWakeUp`); one that makes the
  room it waits for leaves it asleep until the next read (`CurlIO.RoomNext`).
- A callback that does not fit beside the initial fill sleeps behind the gate
  (`CurlIO.NeverSleepsBehindGate`, `LargeCallbackSleepsBehindGate`).
- The decoder of percent-encoding does not know lower-case digits, and it reads `+` as a space, as form data
  has it but RFC 3986 has not (`Strings.UnescapeMeetsRfc`, `LowerCaseHexIsNotDecoded`).
- A serialised resource of two or three parts with only empty dictionaries is refused
  (`CdsResource.DecodeShortForms`).
- A transcoded resource whose mime type is mapped to the content type srt, ssa, smi or sub is rendered with a
  URL that `open` refuses, because the extension resets the resource number
  (`FileRequest.TranscodedUrlIsRead`, `SubtitleTypeIsRefused`).
- The removal protocol keeps its invariant exactly as long as no new directory takes a scan slot from which a
  removal has taken the directory out while a rescan for that directory is pending (`Removal.InvNext`); a slot
  that was freed in another way may be reused. For any two directories there is a run with such a reuse in which
  a valid task below the removed container is queued after the locked section (`ReuseBreaksRemoval`).
- A cancelled or failed rescan freezes the modification-time baseline, and so do new options for a directory
  while it is being rescanned: the copy takes over the task count, but the running pass lowers the count of the
  object that was replaced (`Waves.LostExactly`, `LostTaskStopsBaseline`, `NewOptionsFreezeBaseline`).
- A full scan loses a known file that is newer but refused when it is added again
  (`Rescan.RescanMirrors`, `RefusedFileIsLost`).
- Doubled move watches are not always all removed (`Watches.DropMovesComplete`): a start point that is
  monitored twice leaves one behind in every directory above it (`MonitoredTwice`). One
  sweep of the URL cache leaves half of the entries when all have expired (`UrlCache.SweepLeavesHalf`).
- The parser's check of a negative fill size tests the wrong variable (`ProfileParser.ParseBuffer`).

Where comments and code disagree, the model follows the code: `src/autoscan.h:184-185` says that the timer
is subscribed again when the task count reaches zero, but the code subscribes it once and for all
(`src/content_manager.cc:323-328`), and the last task only moves the baseline.

## Model

| member | source | states |
|---|---|---|
| RingBuffer.TakeDropsFront | src/io_handler_buffer_helper.cc:135-145 | moving `a` by 1 to fill bytes removes exactly those bytes from the front of the queue, round the end of the array too |
| RingBuffer.SkipDropsFront | src/buffered_io_handler.cc:117-128 | the in-buffer seek drops exactly the skipped bytes from the queue unless the distance is zero and the ring full; it empties the ring exactly when it skips everything, and an emptied ring is back at index 0 |
| RingBuffer.JoinAppends | src/buffered_io_handler.cc:173-181 | moving `b` appends exactly the bytes that lie behind it |
| RingBuffer.StoreKeepsContents | src/buffered_io_handler.cc:169 | a write to a free cell behind `b` changes no unread byte |
| BufferHelper.TwoParts | src/io_handler_buffer_helper.cc:112-121 | the two slices that a read copies are the front of the queue |
| BufferHelper.ReaderKept | src/io_handler_buffer_helper.cc:105-121 | appending, and writing to free cells, leaves the reader's unlocked partial copy a prefix of the queue |
| BufferHelper.SeekInBufferLands | src/buffered_io_handler.cc:102-134 | for every ring and every forward distance up to the fill, the seek drops that many bytes, lands on the requested position, and yields the canonical empty ring exactly when it skips everything |
| BufferHelper.ReadOutcomes | src/io_handler_buffer_helper.cc:89-103 | without error and shutdown a read hands bytes over exactly when there are some and the gate is open or the source has ended, and reports the end exactly when the source has ended and nothing is left |
| BufferHelper.SignalsExactly | src/io_handler_buffer_helper.cc:123-145 | a read signals exactly when the ring was full or becomes empty, or after every read where the handler asks for it |
| BufferHelper.IOHandlerBufferHelper.constructor | src/io_handler_buffer_helper.cc:38-60 | the initial state: empty ring, gate up exactly when an initial fill is asked for |
| BufferHelper.IOHandlerBufferHelper.Read | src/io_handler_buffer_helper.cc:80-147 | blocks, reports the socket check, failure or end in the source's order, or returns exactly the oldest unread bytes and removes them from the queue |
| BufferHelper.IOHandlerBufferHelper.Deliver | src/io_handler_buffer_helper.cc:105-146 | the copying half: the bytes returned are the first ones of the queue, the queue loses just these |
| BufferHelper.IOHandlerBufferHelper.CopyOut | src/io_handler_buffer_helper.cc:105-121 | the two slices that are copied are the first bytes of the queue, as many as are wanted and there |
| BufferHelper.IOHandlerBufferHelper.Advance | src/io_handler_buffer_helper.cc:135-145 | the locked end of a read refines the ring operation |
| BufferHelper.IOHandlerBufferHelper.TrySeekInBuffer | src/buffered_io_handler.cc:102-134 | performs the seek exactly when its target is buffered, and then as SeekInBufferLands says; otherwise changes nothing |
| BufferHelper.IOHandlerBufferHelper.MoveFront | src/buffered_io_handler.cc:119-127 | the movement of `a` refines the skip on the ring |
| BufferHelper.IOHandlerBufferHelper.SkipBytes | src/buffered_io_handler.cc:119-131 | position, ring and pending flag after a served seek |
| BufferHelper.IOHandlerBufferHelper.OpenGate | src/buffered_io_handler.cc:182-193 | the gate stays up exactly while less than the initial fill is buffered |
| BufferedIO.SeekPartContents | src/buffered_io_handler.cc:99-158 | the locked top of the loop: a buffered seek drops the skipped bytes, a seek of the source empties the queue, anything else leaves it alone |
| BufferedIO.WriteByteKeepsInv | src/buffered_io_handler.cc:167-170 | no byte of the unlocked read lands on an unread byte, whatever the reader has drained meanwhile |
| BufferedIO.ReadBytesLieBehindB | src/buffered_io_handler.cc:167-174 | when the unlocked read is over `b` has not moved, and the cells behind it hold exactly the bytes that the source has returned |
| BufferedIO.CommitKeepsQueue | src/buffered_io_handler.cc:171-181 | a commit appends exactly the bytes that the source's read has returned |
| BufferedIO.InvNext | src/buffered_io_handler.cc:78-202 | every step of the filler, the reader or a seek keeps: bytes returned by the source = bytes gone + bytes in the ring, the filler's free cells with what the read has stored in them, the reader's partial copy |
| BufferedIO.RunKeepsInv | src/buffered_io_handler.cc:78-202 | the same in every state of every interleaving |
| BufferedIO.StreamIsPreserved | src/buffered_io_handler.cc:78-212 | over every run without seeks the bytes delivered to the client followed by those buffered are exactly the bytes that the source's reads have returned, told from the steps of the source alone |
| BufferedIO.EachReadIsNext | src/buffered_io_handler.cc:167-181 | each read delivers the bytes fetched right after those that left before, a stored byte changes nothing unread, and a commit appends what the source has returned |
| BufferedIO.FlagsTellHistory | src/buffered_io_handler.cc:159-212 | over any run: eof, readError and the socket flag are set exactly by the answers of the source, the gate is up exactly until the initial fill has been reached since the start or the last restart, and the filler stops only for the end, an error or shutdown |
| BufferedIO.ReadIsServedWhen | src/io_handler_buffer_helper.cc:89-103 | over any run: when a read gets bytes and when it sees the end, told from the history and the bytes buffered |
| BufferedIO.EndMeansEverything | src/io_handler_buffer_helper.cc:100-103 | a client that sees the end has received exactly what the source returned before its answer 0 |
| BufferedIO.ClientReceivesEverything | src/io_handler_buffer_helper.cc:80-147 | once the source has ended, a client that reads on in pieces of any length receives everything, and then the end |
| BufferedIO.ReaderTellsHistory | src/io_handler_buffer_helper.cc:80-181 | over any run the reader is idle, copying or seeking according to the client's last action |
| BufferedIO.WhoWakes | src/io_handler_buffer_helper.cc:123-173 | which steps wake a sleeping filler: seek requests, shutdown, and reads from a full ring or to an empty one; nothing else |
| BufferedIO.SeekIsHeard | src/io_handler_buffer_helper.cc:167-173 | over any run no seek request is slept through |
| BufferedIO.NoReadAfterShutdown | src/buffered_io_handler.cc:203-205 | once the handler is closed the read under way is the last |
| BufferedIO.NoStallNext | src/buffered_io_handler.cc:136-165 | the invariant that the filler never sleeps behind the gate survives a step exactly when the step is not a seek that the source refuses while the ring is full |
| BufferedIO.FillerNeverStalls | src/buffered_io_handler.cc:160-193 | in all runs without such a refusal, an unsignalled sleeping filler leaves the reader bytes and an open gate |
| BufferedIO.NeverStallsWithoutSeeks | src/buffered_io_handler.cc:50-51 | in every run without seek requests, the only ones while seeking is disabled, the filler never stalls, whatever the sizes |
| BufferedIO.FailedSeekStalls | src/buffered_io_handler.cc:139-165 | for every buffer with an initial fill a run of the seek code in which a refused seek puts the filler to sleep behind a closed gate on a full ring |
| BufferedIO.BufferedIOHandler.Create | src/buffered_io_handler.cc:41-52 | the handler exists exactly for a source, positive sizes and an initial fill within the buffer, and starts in an initial state of the protocol |
| BufferedIO.BufferedIOHandler.LockedSeek | src/buffered_io_handler.cc:99-158 | the locked top of the loop on the real array refines the protocol step |
| BufferedIO.BufferedIOHandler.NextChunk | src/buffered_io_handler.cc:160-168 | the size of the next read, or sleep exactly on a full ring |
| BufferedIO.BufferedIOHandler.ReadUnlocked | src/buffered_io_handler.cc:167-170 | what the source returns ends up behind `b`, and no unread byte changes |
| BufferedIO.BufferedIOHandler.JoinChunk | src/buffered_io_handler.cc:171-194 | the commit of a read refines the protocol step, gate included |
| BufferedIO.BufferedIOHandler.LockedCommit | src/buffered_io_handler.cc:170-209 | what follows a read of any result, error, end and socket check included |
| ProfileParser.ParseBuffer | src/config_manager.cc:2571-2627 | a profile is accepted exactly when 0 <= chunk <= size and 0 <= fill <= size; a negative fill size passes the check meant for it, which looks at the loop index, and is only caught after its conversion |
| CurlIO.CallbackSeekMirrors | src/curl_io_handler.cc:172-216 | both outcomes of the callback's seek block keep the ring a window on the resource; an aborting one empties it |
| CurlIO.EnterOk | src/curl_io_handler.cc:170-240 | the first pass of the wait loop keeps the window and goes on only with room for the whole callback |
| CurlIO.ResumeOk | src/curl_io_handler.cc:218-240 | the same for every later pass |
| CurlIO.EnterExactly | src/curl_io_handler.cc:170-240 | the first pass gives the callback up exactly for a shutdown or an unbuffered seek, and goes on exactly when the bytes fit beside what the seek leaves |
| CurlIO.ResumeExactly | src/curl_io_handler.cc:170-240 | a later pass looks for room before it looks for a seek |
| CurlIO.StoringIndices | src/curl_io_handler.cc:243-253 | the two memcpy calls together copy byte k to the k-th free cell |
| CurlIO.StoreKeepsInv | src/curl_io_handler.cc:249-253 | the unlocked copy touches no unread byte |
| CurlIO.CommitKeepsInv | src/curl_io_handler.cc:255-277 | the commit appends exactly the callback's bytes |
| CurlIO.LoopHeadKeepsInv | src/curl_io_handler.cc:112-141 | threadProc's own seek block keeps ring and new transfer aligned exactly when it meets an empty ring |
| CurlIO.InvNext | src/curl_io_handler.cc:112-280 | every step keeps the window on the resource and the alignment of the transfer, exactly unless threadProc's seek block finds bytes |
| CurlIO.RunMirrorsResource | src/curl_io_handler.cc:112-280 | over whole runs with reads, forward and relative seeks the ring holds the resource's bytes from `posRead` on |
| CurlIO.ReadReturnsResource | src/io_handler_buffer_helper.cc:105-146 | so every read returns the resource's bytes at the reader's position and moves the position past them |
| CurlIO.FlagsTellHistory | src/curl_io_handler.cc:112-151 | over whole runs: eof and readError tell how the last transfer ended, the filler stops exactly then, and the gate is up exactly until the initial fill has been reached since the start or the last restart |
| CurlIO.ReadIsServedWhen | src/io_handler_buffer_helper.cc:89-103 | over whole runs: when a read gets bytes and when it sees the end |
| CurlIO.EndMeansEverything | src/curl_io_handler.cc:144-151 | a client that sees the end has read up to the offset at which libcurl reported success |
| CurlIO.SeekLands | src/io_handler_buffer_helper.cc:149-181 | when seek returns, the position is the requested one, unless the end, a failure or shutdown came first |
| CurlIO.ReaderTellsHistory | src/io_handler_buffer_helper.cc:80-181 | over whole runs the reader is idle, copying or seeking according to the client's last action |
| CurlIO.WhoWakes | src/io_handler_buffer_helper.cc:123-173 | every read, seek request and shutdown wakes a waiting callback, and nothing else does |
| CurlIO.RoomNext | src/curl_io_handler.cc:170-240 | a callback sleeps unsignalled beside room for its bytes after exactly one kind of step: woken without room it serves a seek that makes the room, and does not look again |
| CurlIO.NeverSleepsBesideRoom | src/curl_io_handler.cc:170-240 | in all runs without such a step a callback never sleeps through room |
| CurlIO.LoadedIsReachable | src/curl_io_handler.cc:81-280 | for every buffer and every number of bytes a run that has put so many bytes of the resource into the ring |
| CurlIO.LateSeekMisaligns | src/curl_io_handler.cc:112-149 | for every buffer, number of buffered bytes and target a run in which a seek after the last callback of a transfer moves position and transfer while the old bytes stay in the ring |
| CurlIO.GateNext | src/curl_io_handler.cc:228-277 | gate and fill stay compatible through every step of a callback that fits beside the initial fill |
| CurlIO.NeverSleepsBehindGate | src/curl_io_handler.cc:228-277 | no callback sleeps with the gate up when initial fill + callback size <= buffer size + 1, over whole runs |
| CurlIO.LargeCallbackSleepsBehindGate | src/curl_io_handler.cc:228-240 | the bound is exact: for every other choice of sizes there is a run in which a callback goes to sleep behind the gate |
| CurlIO.WakeNext | src/curl_io_handler.cc:170-240 | a filler sleeps unsignalled over an empty ring exactly when a seek skips everything in the ring while a callback waits for room |
| CurlIO.SeekLosesWakeUp | src/curl_io_handler.cc:170-221 | for every buffer and size of callback a run in which such a seek puts the callback to sleep again over an empty ring, with no signal to come |
| CurlIO.FillerNeverStalls | src/curl_io_handler.cc:170-277 | in runs without that event an unsignalled sleeping filler leaves the reader bytes and an open gate |
| CurlIO.CurlIOHandler.Create | src/curl_io_handler.cc:41-57 | the handler exists exactly for a URL, at least CURL_MAX_WRITE_SIZE bytes and an initial fill within the buffer, and starts in an initial state |
| CurlIO.CurlIOHandler.SeekLocked | src/curl_io_handler.cc:172-216 | the seek block on the real fields |
| CurlIO.CurlIOHandler.RoomFor | src/curl_io_handler.cc:228-240 | the room test, with the reset of an empty ring |
| CurlIO.CurlIOHandler.EnterLocked | src/curl_io_handler.cc:170-240 | the first pass of the wait loop on the real fields |
| CurlIO.CurlIOHandler.ResumeLocked | src/curl_io_handler.cc:170-240 | a later pass |
| CurlIO.CurlIOHandler.StoreBytes | src/curl_io_handler.cc:243-253 | the two-part copy puts the callback's bytes behind `b`, leaves the queue alone |
| CurlIO.CurlIOHandler.StoreOne | src/curl_io_handler.cc:251-253 | one byte of it |
| CurlIO.CurlIOHandler.CommitLocked | src/curl_io_handler.cc:255-277 | the locked end of a callback |
| CurlIO.CurlIOHandler.LoopHeadLocked | src/curl_io_handler.cc:114-141 | threadProc's seek block and the resume offset it sets, none for a seek from the end |
| Strings.UnescapeEscape | src/tools.cc:374-445 | url_unescape undoes url_escape for every string of bytes |
| Strings.EscapeIsSafe | src/tools.cc:374-398 | escaped text consists of letters, digits, `_`, `-` and `%`, and is empty only for the empty string |
| Strings.UnescapePlain | src/tools.cc:400-445 | text without `%` and `+` decodes to itself |
| Strings.UnescapeMeetsRfc | src/tools.cc:400-445 | of the texts whose every `%` begins an escape of two digits, the decoder reads as section 2.1 of RFC 3986 wants it exactly those without lower-case digits in escapes and without `+` |
| Strings.EscapeMeetsRfc | src/tools.cc:376-398 | what the encoder writes is well-formed, and a decoder that follows RFC 3986 reads the same string from it |
| Strings.LowerCaseHexIsNotDecoded | src/tools.cc:400-445 | for instance "%2f" reads as a space, whatever follows |
| Strings.EncodeUrl | src/tools.cc:374-398 | the escaping loop computes the recursive form |
| Strings.DecodeUrl | src/tools.cc:400-445 | the unescaping loop, including a cut-off escape at the end |
| Strings.SplitString | src/tools.cc:71-99 | the splitting loop computes the recursive form, with and without empty parts |
| Strings.SplitPart | src/tools.cc:71-99 | a part and its separator come off the front |
| Strings.SplitEmptyPart | src/tools.cc:85-90 | an empty part is kept exactly when it is wanted and something follows |
| Strings.ToIntOfString | src/zmm/strings.cc:374-384 | printing and reading an integer are inverse |
| Dictionaries.GetPut | src/dictionary.cc:72-98 | what get finds after put: the new value under that key, the old ones elsewhere |
| Dictionaries.GetRemove | src/dictionary.cc:87-116 | remove takes out that key only |
| Dictionaries.EqualsIsMapEquality | src/dictionary.cc:227-241 | two dictionaries are equal exactly when they agree on every key, whatever their order |
| Dictionaries.PutAllGet | src/dictionary.cc:213-225 | merging: the later dictionary wins, key by key |
| Dictionaries.DecodeEncode | src/dictionary.cc:118-166 | decode(encode(d)) is d, in order, for every dictionary with distinct keys, empty sides included |
| Dictionaries.DecodeSimpleEncode | src/dictionary.cc:118-194 | decodeSimple(encodeSimple(d)) is the pairs before the first one with an empty key or value, so it is d exactly when no side is empty |
| Dictionaries.Dictionary.Put | src/dictionary.cc:72-85 | replaces in place or appends; keys stay distinct |
| Dictionaries.Dictionary.Get | src/dictionary.cc:87-98 | the value of the first element with the key, or nothing |
| Dictionaries.Dictionary.Remove | src/dictionary.cc:105-116 | the first element with the key goes, the order stays |
| Dictionaries.Dictionary.EncodeWith | src/dictionary.cc:118-131 | the printing loop |
| Dictionaries.Dictionary.Encode | src/dictionary.cc:133-136 | the `=` and `&` form |
| Dictionaries.Dictionary.EncodeSimple | src/dictionary.cc:138-141 | the `/` form |
| Dictionaries.Dictionary.Decode | src/dictionary.cc:143-166 | the parser over `&` and `=`; parts without `=` are skipped |
| Dictionaries.Dictionary.DecodeSimple | src/dictionary.cc:170-194 | the parser over `/`; an empty name or value ends it |
| Dictionaries.Dictionary.Clone | src/dictionary.cc:201-211 | a fresh object with the same pairs |
| Dictionaries.Dictionary.Merge | src/dictionary.cc:213-225 | puts every pair of the other dictionary |
| Dictionaries.Dictionary.IsSubsetOf | src/dictionary.cc:227-237 | every pair is found in the other dictionary |
| Dictionaries.Dictionary.Equals | src/dictionary.cc:238-241 | subset both ways |
| CdsResource.DecodeEncodeResource | src/cds_resource.cc:136-175 | decode(encode(r)) is r for every handler type and every three dictionaries, empty ones included |
| CdsResource.DecodeShortForms | src/cds_resource.cc:150-175 | two- and three-part strings decode to the resource with the missing dictionaries empty, except that a string whose dictionaries are all empty has too few parts and is refused |
| CdsResource.CdsResource.Encode | src/cds_resource.cc:136-148 | the printer on the objects |
| CdsResource.CdsResource.Decode | src/cds_resource.cc:150-175 | the parser, its error included, makes fresh objects |
| CdsResource.CdsResource.Clone | src/cds_resource.cc:128-134 | fresh dictionaries with equal contents |
| CdsResource.CdsResource.Equals | src/cds_resource.cc:118-126 | handler type and all three dictionaries agree |
| ResourceUrls.InsertKeepsBlock | src/cds_resource_manager.cc:139-275 | whatever the profiles, the stored resources stay together and in order between those inserted at the front and at the back |
| ResourceUrls.StoredResourceKeepsNumber | src/cds_resource_manager.cc:308-329 | stored resource k carries the number k in its URL, wherever transcoded resources were inserted |
| ResourceUrls.InsertedResourceHasNoNumber | src/cds_resource_manager.cc:330-339 | every inserted resource carries "none" instead |
| ResourceUrls.OnlyOriginalIsHidden | src/cds_resource_manager.cc:473-475 | hiding the original hides stored resource 0 and nothing else |
| ResourceUrls.PicturesAreRendered | src/cds_resource_manager.cc:344-408 | external pictures keep their URL, album art is no resource, and from the first external picture on there are no extensions |
| ResourceUrls.MissingExactly | src/cds_resource_manager.cc:344-356 | the rendering fails exactly for an external picture without a URL |
| ResourceUrls.InsertResources | src/cds_resource_manager.cc:105-275 | the insertion loop, the index of the original and the hide flag |
| ResourceUrls.RenderNext | src/cds_resource_manager.cc:282-475 | one pass of the rendering loop: carried counter and flag yield the URL that the whole list determines |
| ResourceUrls.RenderResources | src/cds_resource_manager.cc:281-476 | the loop renders every resource so, and fails exactly when external art has no URL |
| ResourceUrls.RenderFirstAt | src/cds_resource_manager.cc:281-476 | what stands at place i of the rendered list |
| FileRequest.ExtensionShape | src/cds_resource_manager.cc:47-75 | a rendered extension is one parameter that the handler can read, for content types without a slash |
| FileRequest.RenderedUrlIsRead | src/file_request_handler.cc:64-113 | the handler reads back object, number, profile and handler from a rendered URL; only a subtitle extension changes the number |
| FileRequest.StoredUrlIsRead | src/file_request_handler.cc:319-424 | the URL of stored resource k leads back to the object and to k, with any profiles inserted, and is never inconsistent |
| FileRequest.TranscodedUrlIsRead | src/file_request_handler.cc:345-477 | the URL of a transcoded resource leads to number -1 and the profile's name; it is accepted exactly when the name is not empty and the extension is not a subtitle's |
| FileRequest.PlainItem | src/cds_resource_manager.cc:479-530 | an item with one plain resource, no profiles and no dot in its location is a case of the routing theorems |
| FileRequest.TranscodedUrlIsServed | src/file_request_handler.cc:469-535 | under the URL of a transcoded resource whose extension is not a subtitle's, `open` serves the profile and `get_info` the same one if it is configured; a URL without a profile name would be refused |
| FileRequest.SubtitleBesideItem | src/file_request_handler.cc:420-425 | the subtitle file has the name of the item's file up to the last dot, and its own extension |
| FileRequest.SubtitleUrlIsServed | src/file_request_handler.cc:404-470 | under the URL of a stored resource that ends as a subtitle `open` and `get_info` both serve that file, or report it as missing |
| FileRequest.SubtitleIsAsked | src/cds_resource_manager.cc:47-75 | such a URL is rendered for every content type that names a subtitle |
| FileRequest.SubtitleTypeIsRefused | src/file_request_handler.cc:404-477 | a transcoded resource whose content type is srt, ssa, smi or sub is never served: `open` refuses every such URL, and `get_info` describes the subtitle file |
| FileRequest.StoredUrlIsServed | src/file_request_handler.cc:469-540 | what `open` serves under the URL of stored resource k: the file for 0, otherwise that resource's handler |
| FileRequest.ThumbnailUrlIsServed | src/file_request_handler.cc:486-515 | the thumbnail appended to an item with stored resources is served by the thumbnailer that its URL names |
| FileRequest.InfoAgreesWithOpen | src/file_request_handler.cc:64-230 | `get_info` takes the branch of every request that `open` accepts; where only `get_info` accepts, number and profile contradict each other |
| FileRequest.ApplyExtension | src/file_request_handler.cc:404-419 | the extension cut at its dot, the subtitle file and the reset number |
| FileRequest.Locate | src/file_request_handler.cc:319-419 | the steps before the file is looked at, with all their errors |
| FileRequest.Open | src/file_request_handler.cc:302-540 | `open` step by step reaches the specified decision |
| FileRequest.GetInfo | src/file_request_handler.cc:53-216 | `get_info` likewise |
| Arrays.RemoveParts | src/zmm/array.cc:107-115 | removeUnordered takes out one occurrence and keeps the rest, the last element moving into the gap |
| BaseQueue.GrownKeepsElements | src/zmm/base_queue.h:77-99 | growing a full circular queue keeps its elements and their order |
| BaseQueue.EnqueueAppends | src/zmm/base_queue.h:101-110 | writing behind the last element appends |
| BaseQueue.DequeueDrops | src/zmm/base_queue.h:112-121 | advancing the begin index drops the first element |
| BaseQueue.BaseQueue.constructor | src/zmm/base_queue.h:44-52 | an empty queue of positive capacity |
| BaseQueue.BaseQueue.Resize | src/zmm/base_queue.h:77-99 | the growth of a full queue |
| BaseQueue.BaseQueue.Enqueue | src/zmm/base_queue.h:101-110 | the contents grow by the element at the back |
| BaseQueue.BaseQueue.Dequeue | src/zmm/base_queue.h:112-121 | the first element goes, or the empty value comes back unchanged |
| BaseQueue.BaseQueue.Get | src/zmm/base_queue.h:123-126 | element number `index` of the contents |
| Autoscan.PlaceKeeps | src/autoscan.cc:97-123 | a new directory takes a slot nobody held, nobody moves, locations stay distinct, and the list grows exactly when it has no hole |
| Autoscan.ClearKeeps | src/autoscan.cc:178-197 | a removal leaves every other slot alone |
| Autoscan.SweepIsExact | src/autoscan.cc:237-265 | the sweep takes out exactly the entries below the parent that are not persistent or are included, although the list may shrink inside the loop; the others keep their slots |
| Autoscan.GoneIsExact | src/autoscan.cc:243-262 | the slots reported as removed are those, each once, in order |
| Autoscan.SweepTwice | src/autoscan.cc:237-265 | nothing is left for a second sweep |
| Autoscan.ApplyKeeps | src/autoscan.cc:97-265 | every operation keeps locations distinct and every directory it does not take out in its slot |
| Autoscan.ApplyExactly | src/autoscan.cc:91-265 | what stands in every slot after every operation |
| Autoscan.TakesOutExactly | src/autoscan.cc:178-265 | which directories an operation takes out |
| Autoscan.RunKeepsDistinct | src/autoscan.cc:97-265 | locations are distinct after any sequence of operations |
| Autoscan.RunKeepsSlot | src/autoscan.cc:97-265 | a directory keeps its scan ID through any sequence of operations that does not take it out |
| Autoscan.ReplaceKeepsSlot | src/content_manager.cc:1802-1842 | changing a directory's options keeps its scan ID exactly when there is no hole above it, and none at all if it holds the last slot; the addition cannot fail |
| Autoscan.NewOptions | src/content_manager.cc:1802-1838 | new options change nothing about what removals take out, about identity and count; the last choice wins |
| Autoscan.SetAutoscanDirectory | src/content_manager.cc:1802-1842 | the copy that replaces the original shares its timer parameter and the registry stays right |
| Autoscan.CopyWith | src/content_manager.cc:1802-1816 | the copy's settings; the times restart exactly on a change from full to basic, or to recursive in a full scan |
| Autoscan.AutoscanDirectory.SetScanID | src/autoscan.cc:289-293 | scan ID and timer parameter change together |
| Autoscan.AutoscanDirectory.CopyTo | src/autoscan.cc:347-363 | all properties are copied and the timer parameter object is shared |
| Autoscan.AutoscanDirectory.SetCurrentLMT | src/autoscan.cc:69-73 | the time only rises |
| Autoscan.AutoscanDirectory.PassEnds | src/content_manager.cc:2034-2038 | the last task of a wave, and only that, moves the baseline |
| Autoscan.AutoscanDirectory.ResetLMT | src/autoscan.h:223-227 | both times restart |
| Autoscan.AutoscanList.ScanFor | src/autoscan.cc:100-112 | the loop of `_add` finds a taken location or the last hole |
| Autoscan.AutoscanList.Put | src/autoscan.cc:114-122 | the directory enters the free slot, with that number in itself and its timer parameter |
| Autoscan.AutoscanList.Add | src/autoscan.cc:91-123 | fails, changing nothing, exactly when the location is taken; otherwise as PlaceKeeps, and the registry invariant is kept |
| Autoscan.AutoscanList.Get | src/autoscan.cc:148-156 | the directory in the slot, or nothing outside and for holes |
| Autoscan.AutoscanList.GetByLocation | src/autoscan.cc:169-176 | the directory with the location, or nothing |
| Autoscan.AutoscanList.GetByObjectID | src/autoscan.cc:158-167 | the first directory with the object ID, or nothing |
| Autoscan.AutoscanList.Vacate | src/autoscan.cc:188-195 | the removal of one slot: the scan ID becomes invalid in the directory and its timer parameter, and the registry invariant is kept |
| Autoscan.AutoscanList.Remove | src/autoscan.cc:178-198 | removal by scan ID |
| Autoscan.AutoscanList.RemoveByObjectID | src/autoscan.cc:200-217 | removal by object ID |
| Autoscan.AutoscanList.RemoveByLocation | src/autoscan.cc:219-235 | removal by location |
| Autoscan.AutoscanList.CopyInto | src/autoscan.cc:252-255 | the inner `add` cannot fail, and the copy gets the old scan ID back |
| Autoscan.AutoscanList.RemoveIfSubdir | src/autoscan.cc:237-265 | returns copies of exactly the removed directories with their old scan IDs, each sharing its timer parameter with the original; the scan IDs of the originals and the timer parameters become invalid; the registry is swept as SweepIsExact says and stays right |
| Scheduler.InvalidateTaskHits | src/content_manager.cc:1457-1486 | for an ID that was given out, exactly that task and its direct children become invalid, wherever they are; ID 0 would hit all top-level tasks |
| Scheduler.InvalidateAddTasksHits | src/content_manager.cc:1541-1560 | for a path exactly the tasks lose their validity that add files below it |
| Scheduler.SameIdSameTask | src/content_manager.cc:1328-1339 | an ID identifies one task |
| Scheduler.InvNext | src/content_manager.cc:1282-1339 | every client or worker step keeps: IDs unique and increasing with older parents, both queues in submission order, no task run twice or after it was invalidated in a queue |
| Scheduler.RunKeepsInv | src/content_manager.cc:1282-1339 | the same in every state of every run |
| Scheduler.SubmittedInOrder | src/content_manager.cc:1328-1339 | over any run the n-th submission gets the ID n and goes into the queue it was submitted to |
| Scheduler.KnownWasSubmitted | src/content_manager.cc:1328-1339 | every known task is one that was submitted, with its number, job and parent |
| Scheduler.FetchedIsFirst | src/content_manager.cc:1288-1297 | the worker fetches the first high-priority task, or the first low-priority one, or nothing |
| Scheduler.RunsExactly | src/content_manager.cc:1300-1305 | over any run: of the tasks that the worker is done with exactly those have run that were not invalidated before it looked at them |
| Scheduler.WorkerGetsThrough | src/content_manager.cc:1284-1318 | from any point of any run the worker alone gets through all tasks; then exactly the submitted ones that were not invalidated in time have run |
| Scheduler.LowOnlyWhenHighEmpty | src/content_manager.cc:1288-1297 | when a low-priority task is taken, every high-priority task submitted so far has been taken |
| Scheduler.ContentManager.constructor | src/content_manager.cc:103-116 | empty queues and the first task ID 1 |
| Scheduler.ContentManager.AddTask | src/content_manager.cc:1328-1339 | the next ID and a place at the end of the chosen queue |
| Scheduler.ContentManager.NextTask | src/content_manager.cc:1288-1297 | the locked top of the worker's loop |
| Scheduler.ContentManager.InvalidateIn | src/content_manager.cc:1470-1476 | the loop over one queue hits exactly the targets |
| Scheduler.ContentManager.InvalidateEverywhere | src/content_manager.cc:1461-1484 | both queues and the current task |
| Scheduler.ContentManager.InvalidateTask | src/content_manager.cc:1457-1486 | invalidation by ID on the objects |
| Scheduler.ContentManager.InvalidateAddTasks | src/content_manager.cc:1541-1560 | the locked section of removeObject |
| Removal.SweptIsSweep | src/content_manager.cc:1527-1539 | the registry step of the protocol is the sweep of the registry |
| Removal.InvNext | src/content_manager.cc:1523-1563 | a step of clients or worker keeps the protocol invariant exactly when it does not give the slot of a pending rescan, whose directory a removal has taken out, to a new directory |
| Removal.RunKeepsInv | src/content_manager.cc:1523-1563 | the same in every state of every such run |
| Removal.NoTaskSurvivesRemoval | src/content_manager.cc:1541-1563 | once the locked section is over, no valid queued or current task adds files for a directory that was taken out, then or ever later |
| Removal.RemovalComesLast | src/content_manager.cc:723-783 | whatever was added for such a directory, by a rescan itself or by a task with its whole tree, was added before the container was deleted |
| Removal.RescanScans | src/content_manager.cc:695-787 | a valid rescan whose slot holds a directory scans it, adds files and queues tasks on behalf of the directory it was created for |
| Removal.ScanGoesOn | src/content_manager.cc:746-787 | after an entry that is skipped or gets a rescan of its own the scan goes on |
| Removal.SweptRescanStops | src/content_manager.cc:723-783 | a rescan whose directory was taken out stops before an entry, and queues no task |
| Removal.AddTaskAdds | src/content_manager.cc:805-895 | a valid add task adds what lies below its path, entry by entry |
| Removal.QueuedRemovalIsAccounted | src/content_manager.cc:1560-1563 | over any run without reuse a removal that a call has queued has taken its container out, or waits, or was cancelled before the worker looked at it |
| Removal.CallGoesThrough | src/content_manager.cc:1523-1563 | a call takes exactly the registered, not persistent directories below its path out, invalidates the add tasks and queues its removal at high priority |
| Removal.QueuedRemovalHappens | src/content_manager.cc:1284-1318 | from any point of any run without reuse the worker alone gets through all tasks; then every container whose removal was queued is gone, unless that was cancelled in time |
| Removal.RemovalRemoves | src/content_manager.cc:2010-2014 | a valid removal task takes its container out |
| Removal.RegistrySteps | src/autoscan.cc:91-198 | an added directory is found under its scan ID, a freed one is not, and all others stay |
| Removal.AddNeedsNewLocation | src/autoscan.cc:100-112 | a directory can be added exactly if none is registered for its location |
| Removal.QueuesAreTheSchedulers | src/content_manager.cc:1282-1339 | every step does to the queues what a step of the scheduler does, so that what holds in its runs holds here |
| Removal.AddEntryKeeps | src/content_manager.cc:805-895 | an entry that a rescan or an add task adds is added for a directory whose container is still there |
| Removal.SpawnAddKeeps | src/content_manager.cc:767-783 | the second check of the scan ID, under the lock, is what keeps a rescan from queueing a task too late |
| Removal.InvalidateHits | src/content_manager.cc:1541-1560 | the path test hits every task of the directories taken out |
| Removal.ReuseBreaksRemoval | src/content_manager.cc:621-726 | for all locations of two directories, a run in which the second takes the slot of the first, which a removal took out while a rescan was pending; a valid task below the removed container is queued after the locked section |
| Waves.InvNext | src/autoscan.h:178-227 | the count is that of the tasks under way plus those lost, all passes of a wave read one baseline, the current time is the highest reported |
| Waves.RunKeepsInv | src/content_manager.cc:1569-1589 | the same in every state of every run |
| Waves.LostExactly | src/content_manager.cc:1736-1850 | a task under way stops counting down exactly when a rescan is cancelled or fails, or new options come while a rescan runs or, with a new slot, while rescans wait |
| Waves.CountIsPending | src/content_manager.cc:1569-1589 | without such steps the count is the number of requested, queued and running rescans |
| Waves.SameBaseline | src/content_manager.cc:667 | every pass of a wave starts from the same baseline, while no new options come |
| Waves.ReportIsMaximum | src/content_manager.cc:789-802 | what a pass reports is the maximum of the baseline and the times it has met |
| Waves.CountIsRequestsLessEnds | src/content_manager.cc:1569-1589 | over any run the count is the number of requests less that of the passes that came to their end |
| Waves.WaitingCounts | src/content_manager.cc:1569-1589 | what waits, told from the steps, as long as the directory keeps its slot |
| Waves.RunningSinceStart | src/content_manager.cc:2026-2039 | a pass runs from its start until it ends, fails or loses its directory |
| Waves.WaveEnds | src/content_manager.cc:2026-2039 | the count reaches zero exactly when the last task returns and none was lost; the baseline becomes the highest time reported, never lower than before |
| Waves.LostTaskStopsBaseline | src/content_manager.cc:2026-2039 | after a lost task the count never reaches zero and the baseline stays for good, unless new options set it to zero |
| Waves.NewOptionsFreezeBaseline | src/content_manager.cc:1802-1838 | so it is after new options for a directory that is being rescanned |
| Rescan.RescanMirrors | src/content_manager.cc:695-799 | after a completed rescan a name is in the database exactly when it is a visible regular file that was known, and not refused when added again, or is accepted |
| Rescan.BasicRescanMirrors | src/content_manager.cc:734-757 | for a basic scan: exactly the visible regular files that were known or are accepted, spelled out in names, kinds and options |
| Rescan.RescanIds | src/content_manager.cc:695-797 | files keep their IDs or get fresh ones, and the IDs deleted at the end are old ones that never hit a file added in this pass |
| Rescan.HighestIsMaximum | src/content_manager.cc:667-757 | the running comparison value is the maximum of the baseline and the times of the files seen so far that count |
| Rescan.ReaddedIsNewer | src/content_manager.cc:736-744 | a full scan adds a known file again exactly when it is newer than the baseline and than every file listed before it that counts |
| Rescan.RescanWithNewOptions | src/content_manager.cc:1806-1811 | the first full rescan of a directory that has become recursive adds every known file again that is newer than those before it, and otherwise only if it is newer than the old baseline |
| Rescan.BackToFullRestarts | src/content_manager.cc:1805-1811 | a change from full to basic and back restarts both times |
| Rescan.RefusedFileIsLost | src/content_manager.cc:736-742 | a known file that is newer than the baseline and no longer accepted disappears from the database |
| Rescan.HighestIsMonotonic | src/content_manager.cc:667 | the time that a pass reports is never below the baseline it read |
| Rescan.RescanDirectory | src/content_manager.cc:695-801 | the loop over the directory and the final deletion compute that result |
| Rescan.RescanEntry | src/content_manager.cc:702-766 | one entry of the directory |
| Rescan.AddFile | src/content_manager.cc:513-570 | the import decision, the server's own configuration file excluded |
| UrlCache.SweepHalves | src/content_manager.cc:1857-1884 | one sweep removes only expired entries, keeps every fresh one and removes at least half of the expired ones, rounded up |
| UrlCache.SweepsClear | src/content_manager.cc:1857-1884 | k sweeps clear any number of expired entries below 2^k |
| UrlCache.SweepLeavesHalf | src/content_manager.cc:1866-1884 | the bound is reached: when all entries have expired a sweep leaves exactly half of them, rounded down |
| UrlCache.CacheEffect | src/content_manager.cc:1899-1955 | caching keeps the bounds, replaces only the own entry, and fails exactly when the cache is full of other objects all accessed in this second |
| UrlCache.EvictionTakesOldest | src/content_manager.cc:1908-1941 | an eviction gives up one entry and leaves none accessed strictly earlier |
| UrlCache.RunAgreesWithMap | src/content_manager.cc:1857-1971 | over any run at most 20 entries, one per object, each the last URL cached for it; a lookup yields that URL or nothing |
| UrlCache.LookupExactly | src/content_manager.cc:1957-1971 | a lookup answers exactly for the objects that have an entry, with its URL |
| UrlCache.CachedIsFound | src/content_manager.cc:1899-1971 | what was cached is found |
| UrlCache.DropsWhen | src/content_manager.cc:1863-1945 | an object goes only when a sweep finds it expired, or as the least recently used one when a new object enters a full cache |
| UrlCache.CheckHalves | src/content_manager.cc:1855-1884 | a check of the timer gets rid of at least half of the objects that were unused for longer than the lifetime |
| UrlCache.LookupOverRun | src/content_manager.cc:1855-1971 | over any run a lookup yields the URL cached last, exactly when the object was neither evicted nor swept since |
| UrlCache.AccessIsLastUse | src/cached_url.cc:57-67 | over any run the access time of an entry is that of the object's last caching or lookup |
| UrlCache.CachedURL.GetURL | src/cached_url.cc:57-67 | a read sets the access time |
| UrlCache.UrlCache.Sweep | src/content_manager.cc:1863-1884 | the in-place loop with the shrinking bound |
| UrlCache.UrlCache.CheckCachedURLs | src/content_manager.cc:1857-1896 | the timer is armed again exactly when entries remain |
| UrlCache.UrlCache.FindPlace | src/content_manager.cc:1910-1927 | the search for the own entry and the replacement candidate |
| UrlCache.UrlCache.Insert | src/content_manager.cc:1928-1945 | the eviction and the append |
| UrlCache.UrlCache.CacheURL | src/content_manager.cc:1899-1955 | as CacheEffect; the timer is armed exactly while the cache is not empty |
| UrlCache.UrlCache.GetCachedURL | src/content_manager.cc:1957-1971 | the lookup and its access |
| Watches.WatchPathOk | src/autoscan_inotify.cc:282-332 | the chain of move watches keeps "a non-negative parent descriptor names the direct parent directory" |
| Watches.MonitorOk | src/autoscan_inotify.cc:502-553 | so does monitoring a directory |
| Watches.MonitorLinks | src/autoscan_inotify.cc:282-332 | after monitoring a start point every directory on the way has a node whose parent is the directory above, up to the root |
| Watches.OneWatchForALocation | src/autoscan_inotify.cc:502-553 | monitoring a directory again for the same location adds no second watch, for another location it does |
| Watches.NoStartPoint | src/autoscan_inotify.cc:502-553 | a directory that is no start point gets its own watch only |
| Watches.ClimbToRoot | src/autoscan_inotify.cc:642-681 | from a directory linked in this way the climb visits all directories above it, nearest first |
| Watches.ClimbVisitsAncestors | src/autoscan_inotify.cc:642-681 | following parents visits the proper ancestors, nearest first, each once |
| Watches.DropMovesOnly | src/autoscan_inotify.cc:662-677 | the loop over one watch list drops only move watches of that descriptor |
| Watches.DropMovesComplete | src/autoscan_inotify.cc:662-677 | all move watches of the descriptor go exactly when there are none, or the list is not that one watch alone and its last m - 1 elements hold none, m being their number |
| Watches.DuplicateSurvives | src/autoscan_inotify.cc:662-677 | for instance, of two such watches at the end of any list the second survives |
| Watches.MonitoredOnce | src/autoscan_inotify.cc:642-681 | dropping undoes monitoring: the climb from a start point monitored once visits every directory above, and each gets back the watches it had; where it had none the kernel is told to drop it |
| Watches.MonitoredTwice | src/autoscan_inotify.cc:282-332 | a start point that is monitored twice, for any path, leaves two move watches in every directory above it, and one stays behind in each when its own watch goes |
| Watches.RemoveMovesEffect | src/autoscan_inotify.cc:642-681 | the climb changes only directories above the start, takes only its move watches and keeps the chain of parents |
| Watches.ReachableClimbsEnd | src/autoscan_inotify.cc:642-681 | in every reachable table the climb ends, within as many steps as the path has components |
| Watches.AutoscanInotify.AddMoveWatch | src/autoscan_inotify.cc:298-332 | the parent rules and the appended watch on the objects |
| Watches.AutoscanInotify.WatchPathForMoves | src/autoscan_inotify.cc:282-296 | the loop from the root directory down |
| Watches.AutoscanInotify.HasAppropriateAutoscan | src/autoscan_inotify.cc:593-610 | the search in one watch list |
| Watches.AutoscanInotify.MonitorDirectory | src/autoscan_inotify.cc:502-553 | start point, parent and watch of a monitored directory |
| Watches.AutoscanInotify.DropMoves | src/autoscan_inotify.cc:662-677 | the inner loop, and when the kernel is told |
| Watches.AutoscanInotify.RemoveWatchMoves | src/autoscan_inotify.cc:642-681 | the climb: what it changes, that it ends, and which descriptors the kernel is to drop |
| Watches.AutoscanInotify.Ignored | src/autoscan_inotify.cc:249-253 | the handling of a dropped descriptor |

## Left out

- Machine widths: offsets, sizes and the task counter are mathematical integers, except for the conversion in `ProfileParser`; `SEEK_SET` distances that overflow an int are not modelled.
- BufferHelper.SeekInBufferLands: covers distances from 1 on; a backward `SEEK_SET` within a non-empty ring also takes the in-buffer branch of the code (`src/buffered_io_handler.cc:113-127`) and is not modelled, and zero distance on a full ring is covered by `RingBuffer.SkipDropsFront` only.
- BufferedIO.StreamIsPreserved: runs without seeks; with seeks `EachReadIsNext` speaks about the bytes since the source was last repositioned. The position after a seek of the source is not modelled for the chunked handler, because the code does not update it.
- CurlIO.RunMirrorsResource: callbacks are not empty, `SEEK_END` is not used (the code only logs it), and end and error flags, which the code sets without the lock, are set in one step with the loop test.
- Condition variables: a signal wakes the filler at some later step; spurious wake-ups are steps like any other.
- Strings with embedded NUL bytes, and the difference between a null and an empty string inside dictionaries.
- FileRequest.StoredUrlIsRead: for plain media items whose resource parameters do not use the names object_id, res_id, ext and pr_name, and for content types without a slash. External-URL items, active items (which run an action) and online services use other URL bases and are not modelled, nor are mime types, headers and the protocol-info extensions.
- FileRequest.ThumbnailUrlIsServed: for items with a stored resource; without one the code does not get as far as the thumbnail, because it dereferences resource 0 before (`src/cds_resource_manager.cc:94`).
- ResourceUrls.InsertResources: an item that gets a thumbnail has a stored resource; the mime-type, OGG and FourCC filters of a profile are one flag of the profile; its attributes are given.
- Autoscan.AutoscanList.Remove: requires an occupied slot, because the code dereferences it; `addList` is not used by the server and is left out, and so are the database updates beside the registry.
- Autoscan.SetAutoscanDirectory: both the old and the new scan mode are timed; switching between modes is one removal and one addition.
- Removal.RunKeepsInv: one registry; the inotify registry is swept in the same way before the lock is taken. A request for a rescan and the lookup of its directory are one step. A container below a directory is recognised by its path. Files that a user adds are not recorded.
- Rescan.RescanMirrors: not recursive, not cancelled, and one container; layouts, virtual copies and the notification of clients are left out. The branches for a missing container or directory (`src/content_manager.cc:625-692`) are left out.
- Waves.LostExactly: one directory; a waiting rescan whose slot number has gone to another directory would lower that one's count, which is not modelled.
- Waves.CountIsPending: directories whose container vanishes get the count -1 in the code and leave the registry; that branch is left out.
- Scheduler.RunKeepsInv: the sleep of an idle worker and the shutdown flag are left out; an idle worker is a fetch that finds nothing.
- UrlCache.RunAgreesWithMap: a debug build also touches entries when it logs them; that is left out. Clock failures are left out.
- Watches.ReachableClimbsEnd: paths are lists of components; descendants of a start point and watches for paths that do not exist yet appear only as other changes of a watch list. Event dispatch and the recursion over directories are left out.
- libcurl, libupnp, inotify, stat and readdir, the SQL storage, XML, scripting and process execution appear only through their answers.
- The task list for the web interface, object-type mapping, configuration validation and migration, online services, DLNA strings: long case lists without an unbounded property.
