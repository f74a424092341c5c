# libaudiostream core, modelled in Dafny

This project models the core of libaudiostream, a C++ library that composes
audio streams into trees, mixes them on channels, and schedules sample-accurate
start, stop and control events inside the real-time audio callback.

- `audio_stream.dfy` (module `AudioStreams`): the stream algebra. This covers
  the base stream `TAudioStream`, the decorator `TDecoratedAudioStream` and the
  node shape of `TBinaryAudioStream`. Stream nodes live in a heap of values.
  Every constructor takes streams that already exist, so a node only points to
  older nodes. The model covers:
  - the long-valued calls (`Read`, `Write`, `Length`, `Channels`), `CutBegin`,
    and how `Reset`/`Stop` propagate;
  - `Copy`, and which nodes a destructor frees;
  - faults: a null dereference or an `assert(fStream)` becomes a `Fail` result.
  A destructor returns the sequence of nodes it frees, so a double free shows
  up as a repeated entry.
- `binary_audio_stream.dfy` (module `BinaryAudioStream`): the binary node itself.
  It has two owned branches and an `init` slot that it never frees.
- `renderer_stream.dfy` (module `Renderer`): the renderer wrapper a stream
  command reads from. It is foreign code. It is modelled as an object that
  holds a stream and records every `Read` with its result, which is anywhere
  from zero frames to the number requested.
- `mixer_commands.dfy` (module `MixerCommands`): the scheduler primitives of
  `TExpAudioMixer.h`. These are:
  - the per-cycle `date_map` cache of symbolic dates;
  - the in-buffer test;
  - effect and external control commands;
  - stream commands, whose `Execute` is specified by a pure plan function
    (`Plan`).
  A symbolic date is an opaque key. What it resolves to is a function
  parameter, `resolve`.
- `command_list.dfy` (module `CommandLists`): `TCommandList`, a queue with a
  dirty flag and a stable sort by resolved start date. It also covers the
  queue-routing methods of `TExpAudioMixer`.
- `audio_channel.dfy` (module `AudioChannel`): `TAudioChannel`, one voice.
  It holds three stream slots that are kept in agreement. Its fade wrapper is
  an abstract object whose calls are recorded as events. The model covers the
  guards of `SoundOn`/`SoundOff`/`Reset`, `GetInfo`, and `Mix`. `Mix` clears
  the scratch buffer, reads into it, and returns whether the read was full.
- `pan_table.dfy` (module `PanTable`): `TPanTable`, which covers `Range`
  clamping, the bounds-safe `GetVol` lookup, and `FillTable` with the shape of
  the two tables it fills. The table entries are modelled as reals and the
  cosine curve as a parameter.

One behaviour of `TStreamCommand::Execute` reads as unintended, and the model
states it as written. When the stop date falls in the buffer, the code computes
the stop offset (src/TExpAudioMixer.h:274) and from it the frame count
(src/TExpAudioMixer.h:280). That count is used only by the `Read` at
src/TExpAudioMixer.h:286, which is skipped whenever `to_stop` holds. So the
stop offset is dead exactly when it was computed. The case is a stream command
that starts at frame 100 and stops at frame 180, executed in the buffer
`[64, 192)`: 80 frames at offset 36 are due, and the command is retired without
reading any (`MixerCommands.StartAndStopInOneBuffer`). The model also gives the
corrected cycle, which reads those frames before it retires the command. See
"Findings".

Control commands resolve their start date with `getDate()` directly. They do
not go through the `date_map` cache (src/TExpAudioMixer.h:101-102, 135, 169).
Only stream commands use the cache, and the model reflects that.

## Model

| member | source | states |
|---|---|---|
| PanTable.Range | src/TPanTable.h:47-50 | a value above `max` gives `max`, one below `min` gives `min`, any other is returned unchanged; with ordered bounds the result lies in `[min, max]` |
| PanTable.RangeIdempotent | src/TPanTable.h:47-50 | clamping twice into ordered bounds is the same as clamping once |
| PanTable.VolCurveMonotone | src/TPanTable.h:79-82 | the volume curve `(i/127)^2` never decreases over non-negative indices |
| PanTable.VolCurveEnds | src/TPanTable.h:79-83 | the volume curve is 0 at index 0 and exactly 1 at index 127 |
| PanTable.Tables.constructor | src/TPanTable.h:44-45 | both tables exist, have 128 entries each and are distinct |
| PanTable.Tables.FillTable | src/TPanTable.h:70-84 | afterwards every pan entry is the square of the cosine value at its index, volume entry 0 is exact silence and every other volume entry is `(i/127)^2` |
| PanTable.Tables.GetVol | src/TPanTable.h:65-68 | for every `short` the lookup stays inside the volume table |
| PanTable.Tables.PanEntriesNonNegative | src/TPanTable.h:74-77 | once filled, no pan entry is negative |
| PanTable.Tables.GetVolFilled | src/TPanTable.h:65-83 | once filled, `GetVol(v)` is the volume curve at the clamped index: silence at or below 0, unity gain at or above 127, and non-decreasing in `v` |
| AudioStreams.NewPlain | src/TAudioStream.h:51-52 | allocates one plain node at an identity not yet in the heap and leaves every existing node unchanged |
| AudioStreams.NewDecorated | src/TAudioStream.h:137-140 | allocates a decorator whose slot is null, at an identity not yet in the heap |
| AudioStreams.NewDecoratedOf | src/TAudioStream.h:141-144 | allocates a decorator at an identity not yet in the heap, whose slot, and so whose `getBranch1`, is the given stream |
| AudioStreams.Answer | src/TAudioStream.h:151-191 | a `Read`, `Write`, `Length` or `Channels` call on a null stream faults, and the only fault any such call can end in is a null slot |
| AudioStreams.CutBegin | src/TAudioStream.h:175-179 | cutting a null stream faults, and the only fault a cut can end in is a null slot |
| AudioStreams.Propagate | src/TAudioStream.h:163-173 | `Reset`/`Stop` fail only on a null slot, and every node they reach is a source node of the heap |
| AudioStreams.GetBranch1 | src/TAudioStream.h:116-119 | in a well-formed heap the slot is null or a node older than its owner |
| AudioStreams.Deleted | src/TAudioStream.h:146-149 | deleting null frees nothing; deleting a stream frees only existing nodes no newer than it, and the stream's own node last |
| AudioStreams.PlainDefaults | src/TAudioStream.h:56-95 | a plain stream answers 0 to `Read`/`Write`/`Length`/`Channels`, cuts and copies to null without allocating, runs no `Reset`/`Stop` and frees only itself |
| AudioStreams.DecoratorForwards | src/TAudioStream.h:151-191 | a decorator returns exactly what its slot returns for every call and for `CutBegin`, propagates `Reset`/`Stop` as its slot does, and fails its assertion on every one when the slot is null |
| AudioStreams.ChainForwards | src/TAudioStream.h:151-191 | a chain of decorators of any length behaves exactly as the first non-decorator node at its end |
| AudioStreams.PropagateStaysOwned | src/TAudioStream.h:163-173 | `Reset` and `Stop` only reach nodes the stream owns |
| AudioStreams.DeletedCoversOwned | src/TAudioStream.h:146-149 | deleting a stream frees exactly the nodes it owns |
| AudioStreams.DeleteFreesOwnedOnce | src/TAudioStream.h:146-149 | when the branches of every binary node own disjoint trees, deleting a stream frees each owned node exactly once |
| AudioStreams.Copy | src/TAudioStream.h:193-196 | a successful copy only adds nodes to the heap and returns a valid pointer |
| AudioStreams.AnswerByShape | src/TAudioStream.h:56-191 | the answer to every call depends only on the structure of the stream tree, not on node identities |
| AudioStreams.CopyIsDisjointClone | src/TAudioStream.h:193-196 | a copy owns only freshly allocated nodes, is uniquely owned, and has the original's structure with plain streams turned into null |
| AudioStreams.CopyBehavesAlike | src/TAudioStream.h:193-196 | a copy of a tree without plain streams has the original's structure, hence the same state-free answers to every call, and deleting it frees each of its nodes once and no node of the original |
| AudioStreams.CopyOfDecoratedPlain | src/TAudioStream.h:193-196 | copying a decorator around a plain stream gives a decorator with a null slot, which faults where the original answered 0 |
| BinaryAudioStream.NewBinary | src/TBinaryAudioStream.h:43-45 | the new node's inherited slot holds `init`, and `getBranch1`/`getBranch2` return `s1`/`s2` |
| BinaryAudioStream.GetBranch2 | src/TBinaryAudioStream.h:76-79 | in a well-formed heap the second branch is null or a node older than the binary node |
| BinaryAudioStream.BinaryOperations | src/TBinaryAudioStream.h:56-65 | `Write` goes to the `init` slot; `Reset`/`Stop` reach the first branch then the second, succeed iff both do, and stay inside the branches; deleting frees both branches then the node |
| BinaryAudioStream.BinaryNeverFreesInit | src/TBinaryAudioStream.h:46-52 | an `init` stream not owned by either branch is never freed by deleting the node |
| BinaryAudioStream.InitAliasFreedOnce | src/TBinaryAudioStream.h:46-52 | when `init` aliases a branch and the branches are disjoint, deleting the node frees `init`, and every other owned node, exactly once |
| BinaryAudioStream.SharedBranchesFreedTwice | src/TBinaryAudioStream.h:46-52 | a binary node whose two branches are the same stream frees that stream twice |
| Renderer.RendererStream.SetStream | src/TAudioChannel.cpp:60 | the wrapper holds the given stream and its read history is kept |
| Renderer.RendererStream.Read | src/TExpAudioMixer.h:286 | produces between 0 and the requested number of frames, and records the request and its result |
| MixerCommands.InBuffer | src/TExpAudioMixer.h:52-55 | a date is in the buffer iff its offset from the current frame is in `[0, frames)`; an empty buffer holds no date |
| MixerCommands.DateMap.constructor | src/TExpAudioMixer.h:44-50 | a cycle's cache starts empty, with no date resolved through it |
| MixerCommands.GetDate | src/TExpAudioMixer.h:44-50 | a cached date is returned without resolving again and the cache is unchanged; an uncached one is resolved once and added alone to the cache; a cache that agreed with the resolution still does, and the result is the resolved date |
| MixerCommands.SharedDateLookups | src/TExpAudioMixer.h:244-246 | two lookups of one date in a cycle return the same frame, and it is resolved at most once |
| MixerCommands.EffectControlCommand.constructor | src/TExpAudioMixer.h:124-126 | stores the effect, path, value and start date |
| MixerCommands.EffectControlCommand.GetOffset | src/TExpAudioMixer.h:99-106 | the in-buffer offset of the date, in `[0, frames)`, when the date is in the buffer, and `frames` otherwise; the result is below `frames` exactly when the date is in the buffer |
| MixerCommands.EffectControlCommand.Execute | src/TExpAudioMixer.h:130-142 | sends exactly one control value and returns false iff the date is in the buffer; otherwise sends nothing and returns true |
| MixerCommands.ExternalControlCommand.constructor | src/TExpAudioMixer.h:158-160 | stores the callback, value and argument, and leaves the start date unset |
| MixerCommands.ExternalControlCommand.GetOffset | src/TExpAudioMixer.h:76 | the inherited base offset, which is negative |
| MixerCommands.ExternalControlCommand.Execute | src/TExpAudioMixer.h:164-175 | calls the callback once with the resolved date, value and argument and returns false iff the date is in the buffer; otherwise calls nothing and returns true |
| MixerCommands.Plan | src/TExpAudioMixer.h:250-280 | for a non-empty buffer: the stream plays iff its start is before the buffer end, from the start offset clipped at 0; it stops iff its stop is before the buffer end, at the stop offset clipped at `frames`; the count is stop minus start offset |
| MixerCommands.ReadStaysInBuffer | src/TExpAudioMixer.h:260-286 | for a non-empty buffer, whenever a stream is read, the read starts at a non-negative offset, asks for 1 to `frames` frames and ends at the buffer end |
| MixerCommands.ReadCoversPlayWindow | src/TExpAudioMixer.h:260-280 | whenever the stream plays, offset and count cover exactly the frames of the buffer between the later of start date and buffer start and the earlier of stop date and buffer end |
| MixerCommands.ThroughStopReadStaysInBuffer | src/TExpAudioMixer.h:260-280 | whenever the corrected cycle reads, the read starts at a non-negative offset, asks for at least one frame, stays inside the buffer, and ends at the stop date when the stream stops here |
| MixerCommands.StartAndStopInOneBuffer | src/TExpAudioMixer.h:261-291 | start 100, stop 180 in buffer `[64, 192)`: 80 frames at offset 36 are due, yet the command as written does not read; the corrected cycle reads them |
| MixerCommands.StopAlreadyPassed | src/TExpAudioMixer.h:270-280 | a stop date before the buffer gives a negative frame count, and the corrected cycle does not read it |
| MixerCommands.StreamCommand.constructor | src/TExpAudioMixer.h:189-191 | stores the renderer stream and both dates |
| MixerCommands.StreamCommand.SetStartDate | src/TExpAudioMixer.h:195 | `SetSartDate`, as the source spells it: replaces the start date and keeps the stop date |
| MixerCommands.StreamCommand.SetStopDate | src/TExpAudioMixer.h:196 | replaces the stop date and keeps the start date |
| MixerCommands.StreamCommand.Execute | src/TExpAudioMixer.h:239-294 | both dates go through the cycle's cache, and only a date not cached yet is resolved, once; a stream not yet playing is kept and not read; a playing stream that stops here is retired unread; otherwise it is read once, `frameNum` frames at `startOffset`, and kept iff all were produced |
| MixerCommands.StreamCommand.ExecuteThroughStop | src/TExpAudioMixer.h:284-293 | corrected cycle: the dates are looked up as in `Execute`; a playing stream with a positive frame count is read once, `frameNum` frames at `startOffset` inside the buffer, and is kept iff it does not stop here and produced them all; otherwise nothing is read and it is kept iff it is not playing or does not stop |
| CommandLists.InsertPermutes | src/TExpAudioMixer.h:337 | inserting adds exactly one occurrence of the command and keeps every other |
| CommandLists.InsertSorted | src/TExpAudioMixer.h:309-312 | inserting into a queue in date order keeps it in date order |
| CommandLists.SortByDate | src/TExpAudioMixer.h:337 | the sorted queue is a permutation of the queue and is in non-decreasing date order |
| CommandLists.SortStable | src/TExpAudioMixer.h:337 | for every date, the commands with that date keep their relative order |
| CommandLists.RemoveAll | src/TExpAudioMixer.h:330 | the command no longer occurs, and every other command keeps its number of occurrences |
| CommandLists.RemoveAllConcat | src/TExpAudioMixer.h:330 | removal works piecewise on every split of the queue, so the remaining commands keep their order |
| CommandLists.CommandList.constructor | src/TExpAudioMixer.h:318-319 | an empty queue with a clear flag |
| CommandLists.CommandList.Size | src/TExpAudioMixer.h:418 | the number of queued commands |
| CommandLists.CommandList.AddCommand | src/TExpAudioMixer.h:322-326 | appends the command at the back and sets the flag |
| CommandLists.CommandList.RemoveCommand | src/TExpAudioMixer.h:328-332 | removes every occurrence of the command and sets the flag |
| CommandLists.CommandList.PossiblySort | src/TExpAudioMixer.h:334-341 | with the flag set, sorts stably by date and clears the flag; with it clear, leaves the queue alone; a queue that was in order while the flag was clear is in order afterwards |
| CommandLists.CommandList.NeedSort | src/TExpAudioMixer.h:343-346 | sets the flag and keeps the queue |
| CommandLists.ExpAudioMixer.constructor | src/TExpAudioMixer.h:395 | two distinct empty queues with clear flags, at frame 0 |
| CommandLists.ExpAudioMixer.AddStreamCommand | src/TExpAudioMixer.h:398-401 | appends to the stream queue, flags it, and leaves the control queue alone |
| CommandLists.ExpAudioMixer.RemoveStreamCommand | src/TExpAudioMixer.h:402-405 | removes from the stream queue, flags it, and leaves the control queue alone |
| CommandLists.ExpAudioMixer.AddControlCommand | src/TExpAudioMixer.h:407-410 | appends to the control queue, flags it, and leaves the stream queue alone |
| CommandLists.ExpAudioMixer.RemoveControlCommand | src/TExpAudioMixer.h:411-414 | removes from the control queue, flags it, and leaves the stream queue alone |
| CommandLists.ExpAudioMixer.GetCommandSize | src/TExpAudioMixer.h:418 | the number of queued stream commands |
| CommandLists.ExpAudioMixer.NeedSort | src/TExpAudioMixer.h:420-424 | flags both queues and keeps their contents |
| AudioChannel.Channel.constructor | src/TAudioChannel.cpp:32-43 | no stream, not inserted, default volume and pan, left output 0, right output 1, a fresh scratch buffer of buffer size times outputs |
| AudioChannel.Channel.GetStream | src/TAudioChannel.cpp:65-68 | on a valid channel, the stream both wrappers hold |
| AudioChannel.Channel.SetStream | src/TAudioChannel.cpp:58-68 | the stream goes into both wrappers, the fade one with fade lengths `FADE_TIME1`, and into the channel; afterwards `GetStream()` returns it and the settings are kept |
| AudioChannel.Channel.SoundOn | src/TAudioChannel.cpp:70-74 | issues one fade-in iff a stream is set and the fade wrapper is idle; otherwise the fade wrapper is untouched |
| AudioChannel.Channel.SoundOff | src/TAudioChannel.cpp:78-81 | issues one fade-out iff a stream is set and the fade wrapper is not idle; otherwise the fade wrapper is untouched |
| AudioChannel.Channel.Reset | src/TAudioChannel.cpp:92-96 | resets the fade wrapper once iff a stream is set |
| AudioChannel.Channel.GetInfo | src/TAudioChannel.cpp:98-106 | the record receives the fade status and frame, the volume, the pan and both outputs, and nothing else changes |
| AudioChannel.Channel.Mix | src/TAudioChannel.cpp:112-126 | the fade wrapper is asked for `framesNum` frames at position 0 into an all-zero scratch buffer, and the result is true iff it produced exactly `framesNum` |

## Left out

- Buffer contents: samples are not modelled. Only a `Read` into the channel's
  scratch buffer records what the buffer held beforehand.
- Floating point: the sin/cos of `GetLR`, the cosine pan curve (a parameter
  here), the `short(fVol)`/`short(fPan)` casts, `TPanTable::GetVolLeft/Right`,
  and the gain scaling of `UAudioTools::MixFrameToFrameBlk`. Floats (the pan
  and volume tables, a channel's volume and pan, samples) are reals, without
  rounding.
- Integer widths: `audio_frames_t` and `long` are unbounded integers. The
  narrowing of the stop offset to `long` and an overflow of
  `cur_frame + frames` are not modelled.
- Stream state: a stream's read position and any other state its calls change
  are not modelled. A `Behaviour` gives every call a fixed answer per stream
  class (tag), so a copied source answers as its original, and the answers of
  `Answer` and `CopyBehavesAlike` are state-free.
- AudioChannel.Channel.Mix: does not model mixing the scratch buffer into
  `dst` with the left and right gains, because that layer is floating-point
  code outside the core.
- AudioChannel.Channel.SoundOff: the `AudioSleep(50)` loop that polls
  `GetInfo` until the fade ends is left out. It waits on another thread.
- Concurrency: the `volatile` sort flag shared between the control and audio
  threads, and the smart-pointer reference counting (`la_smartable1`,
  `LA_SMARTP`). Commands are compared by identity.
- The mixer methods declared without bodies (`AudioCallback`,
  `ExecuteControlSlice`, `ExecuteStreamsSlice`, `GetNextControlOffset`,
  `GetStreamCommand`) are not modelled, and neither is the slicing of a cycle
  at command boundaries.
- The commented-out older `TStreamCommand::Execute` and the printf-only
  `TCommandList::Print` are not modelled.
- MixerCommands.ExternalControlCommand.Execute: requires a start date. Its
  constructor never sets one, and the source would dereference an unset
  pointer.
- The pure virtual `Read`, `CutBegin`, `Length`, `Channels` and `Copy` of
  `TBinaryAudioStream` belong to subclasses that are not part of this model.
  Source streams are abstract too. Their answers come from a `Behaviour`
  parameter, a binary node's `Copy` gives `Fail(Unmodelled)`, and a source
  node is taken to copy into one fresh node and to free only itself.
- The foreign collaborators `TFadeAudioStream`, `TRTRendererAudioStream`,
  `TAudioBuffer`, effect `SetControlValue` and the user
  `AudioControlCallback` are abstract objects that record their calls. The
  fade wrapper's status and frame evolve in code not part of this model.
- The channel destructor clears both wrappers and frees the scratch buffer.
  Deallocation of objects is not modelled, because Dafny's heap is garbage
  collected.
- `FADE_TIME1`, `DEFAULT_VOL`, `DEFAULT_PAN` and `TFadeAudioStream::kIdle` are
  defined in headers that are not part of this model. They are left as
  constants without a value. The global buffer size and output count
  (`TAudioGlobals`) are constructor parameters.
- `ChannelInfo` holds the fields `GetInfo` writes (`fPan`, not the
  `fPanLeft`/`fPanRight` of src/LibAudioStream.h:50-58).
- src/LibAudioStream.h, the C API of declarations, is not modelled.
- CommandLists.ExpAudioMixer.GetCommandSize: does not model the narrowing of
  `size()` to `int`.
- MixerCommands.Plan: for an empty or negative `frames`, the contract states
  only the start offset, whether the stream plays and whether it stops, not
  the stop offset.
- `TCommand::operator<` is not modelled. The queue sorts with
  `compare_command_date`, on the start date resolved at sort time, which is
  the `date` parameter of the sort. `std::list::sort` is stable.

## Findings

| source | as written | input that shows it | evidently intended | confidence | as-written member | corrected member |
|---|---|---|---|---|---|---|
| src/TExpAudioMixer.h:286-290 | `to_stop` is tested before the read, so a playing stream whose stop date falls in the buffer is retired without reading its last frames | start date 100, stop date 180, `cur_frame` 64, `frames` 128: 80 frames at offset 36 are due and none are read | read `frame_num` frames at `start_offset` first, then retire the command when it stops in this buffer or the stream produced fewer frames | medium, not executed | MixerCommands.StartAndStopInOneBuffer | MixerCommands.StreamCommand.ExecuteThroughStop |
