# Verification of KiwiSDR components

A Dafny model of eight stateful parts of KiwiSDR, with proofs of what each keeps over whole
runs. `dafny verify dfyconfig.toml` checks everything.

- **GPS NAV bits** (`NavParity`, `NavFrame`, `NavBin`, `Ephemeris`, `NavParser`, `NavChannel`,
  `Solve`, `Kepler`). A tracking channel polls a ring of 16-bit words, shifts the bits through
  a buffer, unmasks and checks ten chained 30-bit words in place, and counts bits so that the
  satellite's clock can be rebuilt. `NavParser` says what must become of the whole bit stream;
  the channel's methods are shown to do just that, poll by poll. Parity and framing are those
  of sections 20.3.5 and 20.3.3 of IS-GPS-200.
- **JSON configuration** (`Json`, `Jsmn`, `JsmnCut`, `CfgWalk`, `CfgLookup`, `CfgEdit`,
  `CfgTree`, `CfgDoc`, `CfgInto`, `CfgTorn`, `Cfg`, `CfgRun`). The configuration is text in a
  buffer, edited in place, with a flat token list beside it. The tokenizer (built with
  `JSMN_STRICT`), the walk, the lookup, cutting and inserting are each shown to do to text and
  tokens what an ordered-map operation does to the JSON tree; `Cfg.Config.Set` puts them
  together, and `CfgRun` follows whole runs of setters.
- **Network buffers** (`NetQueue`, `NetBuf`, `NetPool`). Queues of messages, as values, as
  linked lists, and sharing one static pool.
- **Satellites and channels** (`GpsAlloc`, `SpiLock`, `GpsSched`). The search task and the
  channel tasks as events in any interleaving; every SPI transfer is a place where tasks
  switch. `SpiLock` is the ticket lock of the SPI bus, which lets higher priorities pass;
  `GpsSched` puts tasks, lock and scheduler together.
- **C/A code generator** (`CaCode`), section 3.3.2.3 of IS-GPS-200.
- **Clock discipline and position solver** (`Clock`, `PosSolver`).
- **DX label list** (`DxList`, `DxMarkers`, `DxEdit`, `DxText`, `DxFile`, `DxLine`, `DxLoad`,
  `DxLong`). Searching and editing the list, and the label file: the text that is written, and
  the loader that reads it through a buffer of 512 characters and tokenizes each piece.
- **Address blacklist** (`IpBlacklist`).

Bits of NAV data are 0 and 1, doubles are reals, and C integers are unbounded except where
wrap-around matters (netmasks, code registers, 48-bit tick counters, 16-bit times). Clocks,
solver results, hardware registers, correlation results and UI settings are parameters.
Outcomes that panic in the program are values here.

## Where the code does not do what it is for

Each of these is stated with its exact condition, for all inputs.

- `a.x` is looked up in the object after `a` when `a` is a number or string
  (`CfgLookup.ScopedIsFind2`, `CfgLookup.ScopedCanStray`); a setter then sets the member of
  that object (`CfgInto.StrayIs`, `Cfg.Config.Set`).
- Setting `a.x` when there is no `a` stores the value where no lookup finds it, again and again
  (`Cfg.SetThenGet`, `CfgRun.SetKeepsOnce`). When `a` is there but no object, the new member is
  written one character into its value. Whatever comes of it, it is not a document with that
  `a.x` (`CfgInto.IntoIsNoUpdate`). It is a document at all exactly if `a` is the last member,
  with nothing after its value, and the value is a primitive of one character or an empty
  string; then `x` becomes a member of the outer object (`CfgInto.IntoIsDocument`; `12` and `5`
  in `Cfg.SetIntoNumbers`). The tokenizer takes more than documents: the setter goes on without
  a panic exactly if the value is an array, the empty string, a string that begins with an
  escaped quote, or a primitive of one character (`CfgTorn.IntoTokenizes`).
- Setting a key that is there more than once removes all occurrences but the last and sets that
  one (`CfgRun.PutEntries`), and panics if any that it removes is of another kind.
- Among queues with a time to live, the assertion on it holds exactly if at each message the
  done buffers are the oldest ones (`NetQueue.TtlAssertIff`, `NetQueue.PutsAssertIff`). No code
  of this program sets a time to live: it is always 0, and the assertion is never evaluated
  (`NetQueue.NoTtlAsserts`).
- `time_diff48` is one tick short when the counter wraps (`Clock.TimeDiff48IsElapsed`).
- A solution that counts no ticks and no time since the one before (0/0) passes the window test
  and makes the clock no number, for good; nothing else does (`Clock.RunBounded`).
- A label is what it was after saving and loading exactly if three things are so
  (`DxLoad.SaveThenLoad`): its options are written, or it needs none (days, times and signal
  width alone are not written); no text has a backslash before a quote (`DxText.TextSurvives`);
  and its element, the text from `[` to `]`, has at most 510 characters. A longer one does not
  fit the loader's buffer, and the label is lost: a list comes back as those that fit, in order
  (`DxLoad.SortedListLoads`; 496 to 999 letters in `DxLong.LettersVanish`). If all fit, all come
  back, whatever their texts (`DxLoad.AllKept`).
- This supposes that the rest of a line that is too long does nothing. The loader takes it for
  lines of their own: a piece does nothing exactly if it is a comment, or does not begin an array
  with a number first, has not just 32 tokens, and leaves no object in the token memory behind
  (`DxLoad.HarmlessIff`; an empty array may go either way). A label can be written that comes back
  as a label on another frequency (`DxLong.TailIsLoaded`).
- The label search sees every label in its range for all lists whose offsets differ by less
  than 10 kHz, its search window, and no larger bound will do (`DxMarkers.WindowIsExact`).
- Deleting a label takes out that one, whatever `qsort` does with equal carriers, exactly if
  every other label is below 999999 kHz or the same as it (`DxEdit.DeletedIff`).
- The satellite clock is late by the bits shifted out when the last subframe is 2500 bits or
  more ago (`Solve.TimeOfTransmission`).

A channel could miss its wake-up if it were started before its task had finished with the
signal it lost (`GpsAlloc.EarlyStartCanStick`); the priorities at the SPI lock exclude it
(`GpsSched.StartsSettled`).

## Model

| member | source | states |
|---|---|---|
| NavParity.EncodedWordAccepted | gps/channel.cpp:125-135 | a word encoded with the parity table of section 20.3.5.2 passes the check, for every data word and both carried bits |
| NavParity.AcceptedWordEncodes | gps/channel.cpp:125-135 | every word that passes is the encoding of the data it unmasks to |
| NavParity.InvertedWord | gps/channel.cpp:125-135 | inverting a word and both carried bits changes neither the verdict nor the unmasked data |
| NavParity.Equations | gps/channel.cpp:125-135 | the six written-out parity equations are the table's six rows |
| NavParity.ErrorsDetected | gps/channel.cpp:125-135 | one to three wrong bits in a word, parity bits included, are always noticed |
| NavFrame.FirstBadIsFirst | gps/channel.cpp:808-821 | the index the chained check stops at is that of the first word that fails, given the bits carried from those before |
| NavFrame.DecodedWord | gps/channel.cpp:125-135 | after in-place unmasking of the words before and at it, a word's data are the sent data |
| NavFrame.SentSubframeAccepted | gps/channel.cpp:784-829 | ten data words encoded in a chain, starting from zero carried bits, are accepted and their data recovered |
| NavFrame.InvertedSubframe | gps/channel.cpp:784-829 | a subframe with every bit inverted gets the same judgement and the same data |
| NavFrame.UprightAcceptedIsSent | gps/channel.cpp:784-829 | an accepted upright subframe is the encoding of the words it decodes to |
| NavFrame.AcceptedIffSent | gps/channel.cpp:784-829 | 300 bits are accepted exactly when they are an encoded subframe that starts with the preamble, upright or inverted |
| NavBin.Bin | gps/gps.cpp:32-36 | gathering bits gives the number they write, most significant first |
| NavBin.PackedBits | gps/ephemeris.cpp:40-47 | the top bits of four packed bytes are the field of the data stream that starts at the first byte |
| NavBin.PackU | gps/ephemeris.cpp:40-47 | an unsigned field is the number written by its bits |
| NavBin.PackS | gps/ephemeris.cpp:40-47 | a signed field is the two's complement number written by its bits |
| Ephemeris.Ephem.Subframe | gps/ephemeris.cpp:228-252 | from unmasked subframe bits: the subframe number, the time of week, and the fields of subframe 1, 2, 3 or page 18 of 4; all other fields keep their values |
| Ephemeris.Ephem.Subframe1 | gps/ephemeris.cpp:51-61 | the seven fields of subframe 1, each the bits of the data stream with parity left out, scaled |
| Ephemeris.Ephem.Subframe2 | gps/ephemeris.cpp:63-73 | the nine fields of subframe 2, three of them across two words |
| Ephemeris.Ephem.Subframe3 | gps/ephemeris.cpp:75-85 | the nine fields of subframe 3 |
| Ephemeris.Ephem.Subframe4 | gps/ephemeris.cpp:87-110 | of page 18 only: the eight ionospheric terms, and, from a Navstar satellite, the leap seconds of now and to come |
| Ephemeris.Gather | gps/ephemeris.cpp:228-240 | 240 data bits are gathered into 30 bytes, skipping six parity bits a word |
| Kepler.EccentricityBelowHalf | gps/ephemeris.cpp:69 | the eccentricity read from any 32 bits is at least 0 and below 1/2 |
| Kepler.StepHalves | gps/ephemeris.cpp:123-144 | one round brings two estimates at least twice as close, for any sine with slope at most 1 |
| Kepler.EccentricAnomaly | gps/ephemeris.cpp:123-144 | the loop ends within 34 rounds, never at its limit of 10000; the result solves Kepler's equation up to e times 1e-10 and is within e of the mean anomaly |
| NavParser.RunResumes | gps/channel.cpp:441-506 | parsing does not depend on how the stream is cut into polls |
| NavParser.FreshRunSound | gps/channel.cpp:441-506 | in every session the accepted subframes are disjoint stretches of the received stream, in order, each accepted on its own bits; probation ends only after two |
| NavParser.NothingLost | gps/channel.cpp:441-506 | once in step, any number of consecutive subframes, upright or inverted, are all accepted and all their words recovered |
| NavChannel.RingIndexIsMod | gps/channel.cpp:568-575 | a place in the ring is the stream position modulo the ring's size |
| NavChannel.Channel.L1Parity | gps/channel.cpp:125-135 | one word of the buffer is unmasked in place, the rest untouched; the result says whether it fails, and the parity bits carry on |
| NavChannel.Channel.CheckWords | gps/channel.cpp:808-821 | the word loop finds the first bad word or none, and has unmasked the buffer exactly that far |
| NavChannel.Channel.ParityCheck | gps/channel.cpp:781-829 | consumes 1, 30 to 300, or 300 bits as the reference parser does, and sets probation, alert, TOW counter and ephemeris accordingly |
| NavChannel.Channel.ReadWord | gps/channel.cpp:441-450 | sixteen bits of a ring word are appended, most significant first, and all counters moved |
| NavChannel.Channel.RemoteBits | gps/channel.cpp:568-575 | the masked difference of write and read position is the number of unread bits, negative differences included |
| NavChannel.Channel.Poll | gps/channel.cpp:441-506 | one poll takes every complete word of the ring and leaves buffer, counters and ephemeris as the reference parser on all bits received |
| NavChannel.Channel.Tracking | gps/channel.cpp:376-550 | a whole session of polls equals the reference parser on the received stream; buffer and TOW counter stay consistent throughout, and the ephemeris holds what the accepted subframes said, in order |
| NavChannel.Channel.GetSnapshot | gps/channel.cpp:836-860 | the counts handed out are all bits not shifted out, and all bits since the end of the last accepted subframe |
| NavChannel.HeardIsLatest | gps/channel.cpp:826-829 | the terms of subframes 1, 2 and 3 held are those of the latest accepted one of each |
| NavChannel.ValidIsOneIssue | gps/ephemeris.cpp:218-224 | once all three have been accepted, the ephemeris is valid exactly when the latest of each carry one issue number that is not 0 |
| Solve.Replica.LoadAtomic | gps/solve.cpp:60-93 | succeeds exactly when probation and alert allow it and the ephemeris is of one issue; the replica then holds the ephemeris, both true bit counts, and the code phase of the registers |
| Solve.Replica.GetClock | gps/solve.cpp:220-242 | the TOW counter replaces the buffered count when below 2500; the clock adds bits, milliseconds, chips and phase |
| Solve.TimeOfTransmission | gps/solve.cpp:220-242 | the rebuilt clock is the satellite's time exactly when fewer than 2500 bits have come since the subframe, or none has been shifted out; otherwise it is late by those |
| Jsmn.ParseRender | pkgs/jsmn/jsmn.cpp:154-312 | the outcome for all text shaped like a JSON value, with blanks around it: INVAL if some bare word is no strict primitive, PART if it is one primitive and nothing after it, else its tokens with kinds, positions, sizes |
| Jsmn.ScanString | pkgs/jsmn/jsmn.cpp:87-149 | a string with escapes ends at its own closing quote |
| Jsmn.ParseValue | pkgs/jsmn/jsmn.cpp:154-312 | in the middle of any text, a value adds its tokens, is counted by its superior, and leaves the right superior |
| Jsmn.ValueFails | pkgs/jsmn/jsmn.cpp:47-84 | in the middle of any text, a value with a bad word anywhere inside stops the tokenizer with INVAL |
| Cfg.Config.Tokenize | pkgs/jsmn/jsmn.cpp:154-312 | the loop over the buffer is that tokenizer |
| JsmnCut.CutIsPart | pkgs/jsmn/jsmn.cpp:154-312 | a text cut off inside its outer array or object gives PART, and the tokens made so far begin those of the whole text, but for what is still open |
| JsmnCut.TruncatedIsPart | pkgs/jsmn/jsmn.cpp:154-312 | so every proper beginning of a value's text gives PART |
| CfgWalk.QuietValue | init/cfg.cpp:1253-1311 | a value that cannot match takes one element off the stack, whatever is nested in it |
| CfgWalk.FindRun | init/cfg.cpp:1253-1311 | the search at level 1 stops at the value of the first member with that key |
| CfgWalk.ScopedRun | init/cfg.cpp:1253-1311 | the search within a scope stops at the first match, the scope lasting until an object or array closes |
| CfgLookup.WalkFollowsNesting | init/cfg.cpp:1253-1311 | any walk of any document visits tokens at their true depth, and if nothing stops it, ends at level 0 |
| CfgLookup.IndexIsValue | init/cfg.cpp:366-387 | a key is found exactly when the tree has it, and the token found begins the value's own tokens |
| CfgLookup.ScopedIsValue | init/cfg.cpp:402-431 | the token found in a scope begins the tokens of the value the search stands for |
| CfgLookup.ScopedIsFind2 | init/cfg.cpp:402-431 | if the key `id1` is not repeated, the search for `id1.id2` gives the tree's answer exactly when `id1` is not a scalar followed by an object with `id2` |
| CfgLookup.ScopedCanStray | init/cfg.cpp:1291-1305 | a document in which the search finds a member of another object |
| CfgLookup.Walk | init/cfg.cpp:1253-1311 | the loop with its array of 32 counts returns what the walk on values returns, for documents nested less than 32 deep |
| CfgLookup.LookupJson | init/cfg.cpp:389-443 | lookup returns the token that a search of the tree gives, nothing, or the mark that only the first part exists |
| CfgEdit.OverlapCopy | support/str.cpp:745-754 | copying towards the front takes a stretch out of the string |
| CfgEdit.Cut | init/cfg.cpp:476-509 | a member with its blanks and one comma is taken out of the text; the position returned is where it was |
| CfgEdit.Ins | init/cfg.cpp:511-552 | the text is opened at a position and the new text put in with a comma on the proper side, or none in an empty object |
| CfgTree.CutIsRemoval | init/cfg.cpp:476-509 | on object text, what a cut leaves is the text of the object without that member |
| CfgTree.InsertBefore | init/cfg.cpp:511-552 | inserting before a member gives the text of the object with the new member there |
| CfgTree.InsertLast | init/cfg.cpp:511-552 | inserting before the closing brace gives the text with the new member last, also in an empty object |
| CfgTree.ReplaceEntries | init/cfg.cpp:649-652 | setting a present key changes one entry of the ordered map, in place |
| CfgTree.RemoveEntries | init/cfg.cpp:603-617 | removing takes one entry out and keeps the order of the others |
| CfgTree.AppendEntries | init/cfg.cpp:638-645 | a new key becomes the last entry, or the first of an inner object |
| CfgDoc.ItemsOfValue | init/cfg.cpp:1264-1266 | the texts the tokens point to are those of the tree |
| CfgDoc.IndexMarks | init/cfg.cpp:476-496 | the token found, and the key token before it, give the position of the member in the text |
| CfgDoc.LookupTwo | init/cfg.cpp:402-431 | what lookup of a two-part name returns on a document in which the first part is missing or an object |
| Cfg.DottedName | init/cfg.cpp:398-411 | an ordinary name with one dot is taken apart at the dot, unless dots are turned off |
| Cfg.Config.LookupName | init/cfg.cpp:389-443 | lookup on the stored text |
| Cfg.Config.Realloc | init/cfg.cpp:1391-1410 | the buffer grows if need be and keeps its text |
| Cfg.Config.CheckKind | init/cfg.cpp:609-625 | the tests on the first characters tell exactly whether the setter may replace the value, and how many quotes belong to it |
| Cfg.Config.CutAt | init/cfg.cpp:476-509 | cutting the member found removes it from the document's text |
| Cfg.Config.InsertAt | init/cfg.cpp:511-552 | the member is inserted, and the buffer always holds text and terminator |
| CfgInto.RenderIsInjective | pkgs/jsmn/jsmn.cpp:154-312 | a text is the text of one document only |
| CfgInto.IntoIsNoUpdate | init/cfg.cpp:638-647 | a member written into a value that is no object: if the text is a document, `id1` is in it and no object, `id1.id2` is not there, and what stood before is unchanged |
| CfgInto.IntoIsDocument | init/cfg.cpp:638-647 | that text is a document exactly when `id1` is the last member with nothing after it, and its value one character or an empty string; then it is the document with `id2` appended |
| CfgTorn.IntoTokenizes | init/cfg.cpp:638-647 | that text is tokenized, so the setter does not panic, exactly when the value is an array, the empty string, a string that begins with an escaped quote, or a primitive of one character |
| CfgInto.StrayIs | init/cfg.cpp:1291-1305 | a search that strays is the search in one other object, which has the member |
| Cfg.Config.RemoveName | init/cfg.cpp:603-625 | removal by name, of what the lookup finds, which of a repeated key is the first occurrence: the document without it, nothing if it is not there, panic if it is of another kind |
| Cfg.Config.Reparse | init/cfg.cpp:1321-1389 | text shaped like a document is tokenized exactly if all its primitives are strict; else the parse panics |
| Cfg.Config.CreateInto | init/cfg.cpp:638-647 | a member is written one character into the value found for `id1`: first in an object, else into the text of the value |
| Cfg.Config.Set | init/cfg.cpp:595-664 | setting a name updates what it stands for, or what the lookup strays to, in place, at the end of the document, or first in an inner object; text, buffer and tokens stay those of the document; of a repeated key the last occurrence is set and the others vanish; it panics exactly when a value of another kind is to be removed. If the first part is no object, the buffer holds the text written into it, and it panics exactly if that cannot be tokenized, which is said of the document |
| Cfg.InnerEntries | init/cfg.cpp:638-645 | an edit of an inner object changes that one entry of the document |
| Cfg.SetThenGet | init/cfg.cpp:595-664 | a value set is read back exactly when the name has one part or its first part exists |
| Cfg.SetKeepsOthers | init/cfg.cpp:595-664 | all other members keep their values |
| Cfg.SetKeepsInner | init/cfg.cpp:595-664 | so do the other members of the inner object |
| Cfg.SetKeepsUnique | init/cfg.cpp:595-664 | keys stay unique except when a value that cannot be found is set twice |
| CfgRun.PutEntries | init/cfg.cpp:649-652 | setting a key, repeated or not: all its occurrences but the last are gone, that one has the value at its place, all others are as they were |
| CfgRun.PutWhole | init/cfg.cpp:649-652 | then the key is there once, is found with the value, and other keys are found as before |
| CfgRun.PutThenGet | init/cfg.cpp:595-664 | also with repeated keys, a value set is read back exactly when the set does not go astray |
| CfgRun.SetKeepsGet | init/cfg.cpp:595-664 | and what the setter does not touch keeps its value |
| CfgRun.SetKeepsOnce | init/cfg.cpp:595-664 | a set leaves its own name once, and repeats a key exactly if it goes astray a second time |
| CfgRun.RunKeepsPlain | init/cfg.cpp:595-664 | no run of setters repeats a key without a dot |
| CfgRun.RunIsSearchable | init/cfg.cpp:389-443 | so after any run from unique keys, all names meet documents of which `Cfg.Config.Set` speaks, unless they stray into an object with a dot in its key |
| CfgRun.LastSetWins | init/cfg.cpp:595-664 | in any run, a name that was set has that value until a setter touches it again |
| Cfg.SetIntoNumbers | init/cfg.cpp:638-647 | the texts after setting `a.x` where `a` is 12, which is broken, and where it is 5, which is not |
| NetQueue.EnqueueKeeps | net/nbuf.cpp:160-224 | the queue keeps its invariant and gains the message at the end unless refused; collection loses no waiting message; at most 65 wait |
| NetQueue.DequeueKeeps | net/nbuf.cpp:258-285 | dequeueing hands out the oldest waiting message and nothing else changes |
| NetQueue.RunConserves | net/nbuf.cpp:160-285 | over every sequence of operations, messages accepted are delivered once each, unchanged, in order, or still waiting |
| NetQueue.OverflowLasts | net/nbuf.cpp:202-210 | after an overflow nothing is accepted while 32 or more messages wait |
| NetQueue.TtlAssertIff | net/nbuf.cpp:172-182 | from any queue with a positive time to live, over every continuation: the assertion holds for good exactly if at each message the done buffers are the oldest, in whatever order they were marked between two messages |
| NetQueue.PutsAssertIff | net/nbuf.cpp:172-182 | for messages alone: exactly if no done buffer is behind one that is not done |
| NetQueue.OneAtATimeIsOrderly | web/web_server.cpp:205-252 | a reader that marks each buffer done before it takes the next keeps that order |
| NetQueue.NoTtlAsserts | net/nbuf.cpp:172-182 | with no time to live, as in this program, there is nothing to assert in any run |
| NetBuf.Ndesc.CollectAll | net/nbuf.cpp:169-200 | ageing and collection on the linked list: exactly the expired oldest buffers are unlinked and freed |
| NetBuf.Ndesc.Enqueue | net/nbuf.cpp:160-224 | enqueueing on the linked list does what it does on the queue as a value, and the list stays doubly linked |
| NetBuf.Ndesc.Dequeue | net/nbuf.cpp:258-285 | the walk along `prev` finds the oldest waiting buffer, which is not done |
| NetBuf.Ndesc.Queued | net/nbuf.cpp:287-306 | counting along `next` gives the counter kept |
| NetBuf.Ndesc.MarkDone | web/web_server.cpp:140-145 | a buffer that was dequeued is marked done |
| NetBuf.Ndesc.Cleanup | net/nbuf.cpp:308-337 | all buffers are freed and the queue is empty |
| NetPool.Pool.FindFree | net/nbuf.cpp:106-119 | the search finds a free buffer unless all are in use |
| NetPool.Pool.AllocQ | net/nbuf.cpp:226-256 | the message goes into the queue or, if refused, its buffer back to the pool; no buffer is in two queues or free while queued; other queues keep their contents |
| NetPool.Pool.Dequeue | net/nbuf.cpp:258-285 | dequeueing keeps that, and the other queues |
| NetPool.Pool.MarkDone | web/web_server.cpp:140-145 | so does marking a buffer done |
| NetPool.Pool.Cleanup | net/nbuf.cpp:308-337 | so does cleaning a queue up |
| NetPool.Pool.NewQueue | net/nbuf.cpp:92-99 | a new queue is empty, and the pool and the other queues are as before |
| NetPool.BusyIsQueued | net/nbuf.cpp:106-141 | the number of buffers in use is the total of the queue lengths |
| GpsAlloc.RunKeeps | gps/search.cpp:524-603 | in every interleaving busy channels track different satellites, each busy satellite is held by one busy channel or is being started, and no busy channel is handed out |
| GpsAlloc.StartLeavesReserve | gps/channel.cpp:891-921 | with QZSS priority, starting a channel for another satellite leaves at least the reserved number free |
| GpsAlloc.InitialOk | gps/channel.cpp:96-98 | the state at start-up satisfies these invariants |
| SpiLock.TurnKeeps | support/coroutines.cpp:1780-1936 | a turn in line keeps all tickets different and held and a free lock with somebody awake for it; who takes the lock has left nobody of higher priority asleep in line |
| SpiLock.LeaveKeeps | support/coroutines.cpp:1940-2075 | leaving wakes all in line and keeps the same |
| SpiLock.InLine | support/coroutines.cpp:1780-1936 | while a task is in line, somebody holds the lowest ticket |
| GpsSched.StartOk | gps/channel.cpp:96-98 | the state at start-up satisfies the invariants of tasks, lock and scheduler together |
| GpsSched.RunServes | gps/channel.cpp:267-330 | in every run from start-up under lock and scheduler every busy channel is served, in the mode of its satellite, or about to be |
| GpsSched.StartsSettled | gps/search.cpp:524-603 | in every such run the search task never starts a channel whose task has not finished with the last signal |
| GpsAlloc.SettledRunServes | gps/channel.cpp:267-330 | the same for all interleavings, lock or not, in which this is so |
| GpsAlloc.EarlyStartCanStick | gps/channel.cpp:554-564 | without it, the wake-up can be missed, and the channel is busy and unserved |
| GpsAlloc.EarlyStartIsReached | gps/channel.cpp:554-564 | interleavings that ignore the lock reach such a state from the start |
| GpsAlloc.StuckForever | gps/channel.cpp:873-887 | such a channel stays so whatever happens |
| GpsAlloc.Receiver.CountChannels | gps/channel.cpp:896-900 | the loop counts the busy channels, and those with QZSS satellites |
| GpsAlloc.Receiver.ChanReset | gps/channel.cpp:891-921 | the first free channel is reset for the satellite, or none if the free ones are reserved |
| GpsAlloc.Receiver.Start | gps/channel.cpp:267-316 | the satellite becomes busy and the channel gets its mode |
| GpsAlloc.Receiver.SetBusy | gps/channel.cpp:318-322 | the channel becomes busy, to be woken |
| GpsAlloc.Receiver.SignalLost | gps/channel.cpp:554-560 | satellite and channel are given back together |
| GpsAlloc.Receiver.Forget | gps/channel.cpp:562-564 | the rest of the loss of signal |
| CaCode.TapsAreInit | gps/cacode.h:27-45 | for all taps and any number of clocks, the tap form has the chips of the form started from the sum of two advanced all-ones states |
| CaCode.Linear | gps/cacode.h:47-52 | the second register is linear in its initial state |
| CaCode.StageIsLast | gps/cacode.h:47-52 | what is in a stage comes out of stage 10 after the remaining clocks |
| CaCode.Register2 | gps/cacode.h:47-52 | the second register has period 1023 |
| CaCode.AllReturn | gps/cacode.h:47-52 | so every initial state returns after 1023 clocks |
| CaCode.ChipsRepeat | gps/cacode.h:43-52 | chips repeat every 1023 clocks, for all taps and for all initial states |
| CaCode.EpochIsPeriod | gps/cacode.h:54-56 | the first register is all ones exactly at multiples of 1023 clocks |
| CaCode.Cacode.constructor | gps/cacode.h:27-41 | taps, or an initial state taken from the low bits of the second argument |
| CaCode.Cacode.Clock | gps/cacode.h:47-52 | shifting the arrays is one step of both registers |
| CaCode.Cacode.Chip | gps/cacode.h:43-45 | the chip after the clocks so far, in both forms |
| CaCode.Cacode.Epoch | gps/cacode.h:54-56 | true exactly after a multiple of 1023 clocks |
| Clock.TimeDiff48IsElapsed | support/timing.cpp:90-100 | the difference is the true one exactly when the counter has not wrapped, else one tick short |
| Clock.RunBounded | init/clk.cpp:117-195 | over every run of solutions and manual adjustments, the base clock is the average once one was accepted, between the least and greatest accepted; it ceases to be a number exactly if some solution counts no ticks and no time since the one before |
| Clock.AcceptedMoves | init/clk.cpp:179-195 | an accepted measurement moves the clock by 1/32 of the offset, so at most 1/32 of the window; the first one takes it there |
| Clock.AcceptedInTen | init/clk.cpp:149-167 | of ten solutions with one clock within 50 ppm, at least one is accepted |
| Clock.Converges | init/clk.cpp:149-195 | every ten such solutions leave at most 31/32 of the error |
| Clock.Discipline.Correction | init/clk.cpp:117-195 | one call, for all times and ticks, is one measurement since the call before, or only sets the reference; with no time passed it is outside every window, or, if there are no ticks either, is taken and makes the clock no number |
| Clock.Discipline.ManualAdj | init/clk.cpp:108-113 | a manual adjustment counts as a correction and leaves the average |
| PosSolver.RunKeeps | gps/PosSolver.cpp:62-144 | the filter is off or in stage 1 to 4 between calls; the steps of successful updates since its start add up to the true elapsed ticks, across 48-bit wrap |
| PosSolver.StepIsElapsed | gps/PosSolver.cpp:169-172 | the step is the true number of ticks, if under one wrap has passed |
| PosSolver.StartNeedsTwoFixes | gps/PosSolver.cpp:84-122 | tracking starts only on a valid fix directly after a valid fix |
| PosSolver.Solver.SolveFor | gps/PosSolver.cpp:62-144 | one call of `solve`, given the outcomes of the two solvers |
| PosSolver.Solver.SetUseKalman | gps/PosSolver.cpp:32-38 | turning the filter off also forgets the last fixes |
| DxList.Unpack | init/dx.h:90-139 | mode, type and days are recovered from the packed flags |
| DxMarkers.Bsearch | rx/rx_cmd.cpp:69-91 | on any non-empty list, sorted or not, the search with the range comparator finds an entry |
| DxMarkers.Markers | rx/rx_cmd.cpp:1382-1422 | on any non-empty list, which entries the scan visits: those from the one found to the first one beyond the window |
| DxMarkers.ScanIsComplete | rx/rx_cmd.cpp:1382-1422 | on a list in order of carriers whose offsets differ by less than 10 kHz, these include every entry in the range |
| DxMarkers.WindowIsExact | rx/rx_cmd.cpp:1385-1387 | a spread of offsets is safe for all such lists and ranges exactly if it is less than the search window |
| DxMarkers.ScanMisses | rx/rx_cmd.cpp:1382-1422 | for each spread of 10 kHz or more, a list on which the scan passes an entry in the range by |
| DxMarkers.Scheduled | rx/rx_cmd.cpp:1442-1502 | the day and time tests accept exactly the times inside a period that starts on one of the days, over midnight too |
| DxEdit.AddedIs | rx/rx_cmd.cpp:966-974 | whatever order `qsort` gives equal carriers: adding keeps the order and adds exactly the new entry |
| DxEdit.ModifiedIs | rx/rx_cmd.cpp:975-997 | changing keeps the order and exchanges exactly one entry |
| DxEdit.DeletedIs | rx/rx_cmd.cpp:957-964 | deleting keeps the order, and takes out exactly that entry if every other one is below 999999 or the same; never if another one is above |
| DxEdit.DeletedIff | rx/rx_cmd.cpp:957-964 | every outcome of `qsort` takes out exactly that entry if and only if every other one is below 999999 or the same as it |
| DxEdit.EditsKeepBelow | rx/rx_cmd.cpp:950-1050 | while only frequencies below 999999 are entered, every entry can be deleted |
| DxEdit.MasksAre | init/dx.cpp:287-306 | the masked list holds exactly the masks of the masked entries in the range |
| DxEdit.LabelDb.UpdateMasked | init/dx.cpp:273-307 | the loop builds that list, in order |
| DxEdit.LabelDb.PrepList | init/dx.cpp:310-331 | sorting, indexing and the masked list |
| DxEdit.LabelDb.Update | rx/rx_cmd.cpp:950-1050 | every edit, of any frequency, keeps the list sorted, indexed and with a spare slot; bad requests change nothing |
| DxEdit.LabelDb.ScanMarkers | rx/rx_cmd.cpp:1382-1422 | on the stored list after any edits the scan visits every entry in the range, if offsets differ by less than 10 kHz |
| DxFile.ScanDecimal | init/dx.cpp:266-267 | a number printed is read back |
| DxText.EncodeKeeps | pkgs/mongoose/mongoose.cpp:3706-3727 | percent-encoding is undone by decoding, for all bytes |
| DxText.SelectiveKeeps | support/str.cpp:647-683 | decoding some escapes early changes nothing in the decoded text, and leaves no quotes or backslashes |
| DxText.TextSurvives | init/dx.cpp:387-404 | a text saved is a JSON string of its own; loaded it reads the same exactly if no backslash stands before a quote |
| DxFile.ModeIsFound | rx/rx_util.cpp:685-691 | the mode name written is read as that mode |
| DxFile.RereadIsNormal | init/dx.cpp:358-490 | the fields of an element give back the entry's normal form exactly when its options are written or it needs none, and no text has a backslash before a quote |
| DxLine.ElementIsRender | init/dx.cpp:125-214 | the text printed for an entry is the text of a JSON array |
| DxLine.FreqReads | init/dx.cpp:136 | the frequency as printed, with two decimals, is a strict primitive and is read back |
| DxLine.IntReads | init/dx.cpp:160-193 | so is every integer option |
| DxLine.ReadSaved | init/dx.cpp:358-490 | the tokens of an element, in front of whatever tokens were there before, are read as its fields, and nothing is rejected |
| DxLoad.SaveAll | init/dx.cpp:125-247 | the file written: one line for each entry, in order, all but the last with a comma |
| DxLoad.Reload | init/dx.cpp:529-625 | the loop over the file: pieces of at most 511 characters, comments, tokens left over, elements taken and rejected |
| DxLoad.LongPiece | init/dx.cpp:571-599 | the first piece of a line too long for the buffer is never loaded and changes nothing |
| DxLoad.HarmlessIff | init/dx.cpp:571-610 | for any piece but a single token: it leaves the list and the loader's state as they are, in all states, exactly if it is a comment, or begins no array with a number first, has not just 32 tokens and leaves no object among the tokens that the next one may read |
| DxLoad.WordIsHarmless | init/dx.cpp:584-599 | so every piece that begins with a letter, say, does nothing |
| DxLoad.SaveThenLoad | init/dx.cpp:529-625 | an entry saved and loaded is its normal form exactly when its fields survive and its element has at most 510 characters; a longer one brings nothing, if what follows its first 511 characters does nothing |
| DxLoad.SortedListLoads | init/dx.cpp:529-625 | a sorted list that was saved is loaded as exactly those entries that fit, in order, each from its own line |
| DxLoad.AllKept | init/dx.cpp:529-625 | a list of entries that fit comes back completely, in order, whatever their texts; each in its normal form if its fields survive |
| DxLong.LettersVanish | init/dx.cpp:529-625 | a label of 496 to 999 letters on 100 kHz, saved alone: nothing is loaded |
| DxLong.TailIsLoaded | init/dx.cpp:529-625 | two labels on 1 and 2 kHz, the second too long: what is loaded is the first and a label on 5 kHz |
| IpBlacklist.MaskIsNet | net/ip_blacklist.cpp:46-47 | comparing under the mask compares the first `cidr` bits |
| IpBlacklist.NetmaskBits | net/net.cpp:559-570 | the prefix length is recovered from every mask, the empty one too |
| IpBlacklist.HomeIsFree | net/ip_blacklist.cpp:49-52 | the home address is never blocked |
| IpBlacklist.Blacklist.Add | net/ip_blacklist.cpp:39-74 | a rule is put first, or refused for its length, for covering the home address, or for lack of room |
| IpBlacklist.Blacklist.Check | net/ip_blacklist.cpp:139-157 | the verdict is that of the most recent rule that covers the address |

## Left out

- Cfg.Config.Set: does not model a name of two parts whose first part, or the object strayed to, is a repeated key; setters repeat only keys with dots (`CfgRun.RunKeepsPlain`).
- Cfg.Config.RemoveName: likewise.
- CfgTorn.IntoTokenizes: documents are those of `CfgInto.IntoIsDocument`, and `id2` begins with a character other than blanks, brackets, braces, quotes, colons and commas. A value with such a character, written into a primitive, is only said to be tokenized or not by `Jsmn.Parse` (`Cfg.Config.Broken`); whether it is depends on what follows, as in `"x :y"`.
- CfgInto.IntoIsDocument: documents are those whose primitives are numbers, `true`, `false` and `null` as in section 3 of RFC 8259, and `id2` does not begin with a character that ends a primitive; the tokenizer takes more words than these.
- CfgTree.CutIsRemoval: does not model tabs or carriage returns between a value and the next comma or brace, line breaks between key and value, or primitives that end in `{`; the editor does not skip the former and takes the latter for an empty object.
- NetBuf.Ndesc.Enqueue: takes the time-to-live assertion as a precondition; `NetQueue.TtlAssertIff` says when it is met, and `NetQueue.NoTtlAsserts` that it is in this program.
- DxLoad.SaveThenLoad: supposes, for an entry that does not fit, that the pieces after its first 511 characters are harmless.
- DxLoad.SortedListLoads: likewise; does not say which entries come of pieces that are not harmless (`DxLoad.Harmless`), beyond `DxLong.TailIsLoaded`; `DxLoad.Reload` has their loading.
- DxLoad.Reload: numbers with exponents or other forms that saving does not write, numbers in tokens left over from earlier lines (read to the end of the token), and texts with a zero character are not modelled; exactly 32 tokens in a line stop the program, here `running`.
- Galileo channels: E1B subframes, Viterbi decoding and their bit counts; the channel model is that of L1 C/A.
- The counter of expected preambles, power averaging, gain control and the watchdogs of the tracking loop.
- Data common to all satellites: the leap seconds are those of each ephemeris, of which the common ones are the latest; the orbit equations other than Kepler's.
- Floating-point rounding.
- Sampling, correlation and the position solvers themselves; the order in which the search task tries satellites (any order is allowed).
- At the SPI lock: the boost that a task in line may give the owner, checks for double locking, and the data transferred; of the scheduler only that a task runs while none of higher priority is known to be able to.
- The numbered modes of clock correction, which only decide when receiver channels are retuned.
- Token memory of the tokenizer and its retries with more, its line counter, and yielding while it runs.
- Removing comment lines before tokenizing; saving configuration files; writing a null string.
- The callbacks of `_cfg_walk` other than lookup, and its virtual tokens, which lookup ignores.
- Label stepping, the EiBi type mask, ident filters and anti-clutter of the marker scan; signs and blanks after `T`, checksums of the label file, and conversion of frequency offsets.
- Parsing of address strings, iptables, and IPv6 netmasks.
- Allocation of message bytes, and network buffers of connections that went away.
