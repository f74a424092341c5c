/** The scheduling primitives of the mixer (TExpAudioMixer.h): symbolic dates
    and their per-cycle cache, the in-buffer test, control commands and stream
    commands.

    A symbolic date is an opaque key; what it resolves to (`getDate` in the
    source) is the parameter `resolve`, the date each key denotes at the time of
    the call. Effects and user callbacks are collaborators whose calls are
    recorded. */
module MixerCommands {
  import opened Renderer

  /** A `SymbolicDate`, by identity. */
  type SymbolicDate = nat

  datatype Option<T> = None | Some(value: T)

  /** `date` lies in the buffer of `frames` frames that starts at `curFrame`:
      exactly when its offset from the first frame is in `[0, frames)`, so an
      empty buffer holds no date. */
  predicate InBuffer(date: int, curFrame: int, frames: int)
    ensures InBuffer(date, curFrame, frames) <==> 0 <= date - curFrame < frames
    ensures frames <= 0 ==> !InBuffer(date, curFrame, frames)
  {
    date >= curFrame && date < curFrame + frames
  }

  function Min(a: int, b: int): int { if a <= b then a else b }

  function Max(a: int, b: int): int { if a >= b then a else b }

  // ---------------------------------------------------------------------------
  // The per-cycle date cache
  // ---------------------------------------------------------------------------

  /** The `date_map` of one audio cycle. `resolved` records every resolution
      (`getDate` call) made through it. */
  class DateMap {
    var entries: map<SymbolicDate, int>
    ghost var resolved: seq<SymbolicDate>

    constructor ()
      ensures entries == map[] && resolved == []
    {
      entries := map[];
      resolved := [];
    }

    /** Every cached date holds what `resolve` gives for it. */
    ghost predicate Agrees(resolve: SymbolicDate -> int)
      reads this
    {
      forall d :: d in entries ==> entries[d] == resolve(d)
    }
  }

  /** `TCommand::GetDate(date_map, date)`: resolves `date` on its first use in
      the cycle and caches it; later uses return the cached value without
      resolving again. */
  method GetDate(dateMap: DateMap, date: SymbolicDate, resolve: SymbolicDate -> int) returns (v: int)
    modifies dateMap
    ensures date in dateMap.entries && v == dateMap.entries[date]
    ensures date in old(dateMap.entries) ==>
      && v == old(dateMap.entries[date])
      && dateMap.entries == old(dateMap.entries)
      && dateMap.resolved == old(dateMap.resolved)
    ensures date !in old(dateMap.entries) ==>
      && v == resolve(date)
      && dateMap.entries == old(dateMap.entries)[date := v]
      && dateMap.resolved == old(dateMap.resolved) + [date]
    ensures old(dateMap.Agrees(resolve)) ==> dateMap.Agrees(resolve) && v == resolve(date)
  {
    if date !in dateMap.entries {
      dateMap.entries := dateMap.entries[date := resolve(date)];
      dateMap.resolved := dateMap.resolved + [date];
    }
    v := dateMap.entries[date];
  }

  /** Two commands sharing one date object within a cycle: the second lookup
      is a cache hit, so the date is resolved at most once and both see the
      same frame. */
  method SharedDateLookups(dateMap: DateMap, date: SymbolicDate, resolve: SymbolicDate -> int)
    returns (first: int, second: int)
    modifies dateMap
    ensures first == second
    ensures |dateMap.resolved| <= |old(dateMap.resolved)| + 1
    ensures date in old(dateMap.entries) ==> dateMap.resolved == old(dateMap.resolved)
  {
    first := GetDate(dateMap, date, resolve);
    second := GetDate(dateMap, date, resolve);
  }

  // ---------------------------------------------------------------------------
  // Control commands
  // ---------------------------------------------------------------------------

  /** One `SetControlValue(path, value)` received by an effect. */
  datatype ControlSet = ControlSet(path: string, value: real)

  /** The effect a control command drives; only the control values it is sent
      are modelled. */
  class Effect {
    var controlSets: seq<ControlSet>

    constructor ()
      ensures controlSets == []
    {
      controlSets := [];
    }

    method SetControlValue(path: string, value: real)
      modifies this
      ensures controlSets == old(controlSets) + [ControlSet(path, value)]
    {
      controlSets := controlSets + [ControlSet(path, value)];
    }
  }

  /** `TEffectControlCommand`: set one effect control at a date. */
  class EffectControlCommand {
    const effect: Effect
    const path: string
    const value: real
    var startDate: SymbolicDate

    constructor (effect: Effect, path: string, value: real, date: SymbolicDate)
      ensures this.effect == effect && this.path == path && this.value == value
      ensures startDate == date
    {
      this.effect := effect;
      this.path := path;
      this.value := value;
      startDate := date;
    }

    /** `TControlCommand::GetOffset`: the offset of the command's date in the
        buffer, or `frames` when the date is not in this buffer. */
    function GetOffset(resolve: SymbolicDate -> int, curFrame: int, frames: int): (r: int)
      reads this
      ensures InBuffer(resolve(startDate), curFrame, frames) ==>
        r == resolve(startDate) - curFrame && 0 <= r < frames
      ensures !InBuffer(resolve(startDate), curFrame, frames) ==> r == frames
      ensures r < frames <==> InBuffer(resolve(startDate), curFrame, frames)
    {
      if InBuffer(resolve(startDate), curFrame, frames) then resolve(startDate) - curFrame else frames
    }

    /** Fires when the date is in the buffer: sends the control value and
        returns false (the command is done); otherwise touches nothing and
        returns true (keep it queued). */
    method Execute(resolve: SymbolicDate -> int, curFrame: int, frames: int) returns (keep: bool)
      modifies effect
      ensures keep <==> !InBuffer(resolve(startDate), curFrame, frames)
      ensures effect.controlSets ==
        if keep then old(effect.controlSets) else old(effect.controlSets) + [ControlSet(path, value)]
    {
      if InBuffer(resolve(startDate), curFrame, frames) {
        effect.SetControlValue(path, value);
        return false;
      } else {
        return true;
      }
    }
  }

  /** One call of a user `AudioControlCallback(date, value, arg)`. */
  datatype CallbackCall = CallbackCall(date: int, value: real, arg: nat)

  /** The user callback; only the calls it receives are modelled. */
  class ControlCallback {
    var calls: seq<CallbackCall>

    constructor ()
      ensures calls == []
    {
      calls := [];
    }

    method Call(date: int, value: real, arg: nat)
      modifies this
      ensures calls == old(calls) + [CallbackCall(date, value, arg)]
    {
      calls := calls + [CallbackCall(date, value, arg)];
    }
  }

  /** `TExternalControlCommand`: call a user callback at a date. Its
      constructor does not set the date, so `startDate` starts as `None`; the
      field is public and set by the code that schedules the command. */
  class ExternalControlCommand {
    const callback: ControlCallback
    const value: real
    const arg: nat
    var startDate: Option<SymbolicDate>

    constructor (callback: ControlCallback, value: real, arg: nat)
      ensures this.callback == callback && this.value == value && this.arg == arg
      ensures startDate == None
    {
      this.callback := callback;
      this.value := value;
      this.arg := arg;
      startDate := None;
    }

    /** The class derives from `TCommand` directly, so it keeps the base
        `GetOffset`, which returns -1: never an offset inside any buffer. */
    function GetOffset(curFrame: int, frames: int): (r: int)
      ensures r < 0
    {
      -1
    }

    /** Fires when the date is in the buffer: calls the callback with the
        resolved date, the value and the argument, and returns false;
        otherwise touches nothing and returns true. */
    method Execute(resolve: SymbolicDate -> int, curFrame: int, frames: int) returns (keep: bool)
      requires startDate.Some?
      modifies callback
      ensures keep <==> !InBuffer(resolve(startDate.value), curFrame, frames)
      ensures callback.calls ==
        if keep then old(callback.calls)
        else old(callback.calls) + [CallbackCall(resolve(startDate.value), value, arg)]
    {
      if InBuffer(resolve(startDate.value), curFrame, frames) {
        callback.Call(resolve(startDate.value), value, arg);
        return false;
      } else {
        return true;
      }
    }
  }

  // ---------------------------------------------------------------------------
  // Stream commands
  // ---------------------------------------------------------------------------

  /** The values `TStreamCommand::Execute` computes before it reads: where in
      the buffer playing starts and stops, how many frames that is, whether the
      stream plays in this buffer and whether it stops in it. */
  datatype StreamPlan = StreamPlan(startOffset: int, stopOffset: int, frameNum: int, toPlay: bool, toStop: bool)

  /** The command reads its stream in this buffer: it plays and does not stop. */
  predicate ReadsStream(p: StreamPlan)
  {
    p.toPlay && !p.toStop
  }

  /** The plan for resolved start and stop dates. For a non-empty buffer: the
      stream plays iff it starts before the buffer ends, from the start date's
      offset clipped at 0; it stops iff the stop date falls before the end of
      the buffer, and the stop offset is the stop date's offset clipped at
      `frames`. */
  function Plan(startDate: int, stopDate: int, curFrame: int, frames: int): (p: StreamPlan)
    ensures p.frameNum == p.stopOffset - p.startOffset
    ensures frames > 0 ==> (p.toPlay <==> startDate < curFrame + frames)
    ensures frames > 0 ==> (p.toStop <==> stopDate < curFrame + frames)
    ensures frames > 0 && p.toPlay ==> p.startOffset == Max(startDate - curFrame, 0)
    ensures frames > 0 ==> p.stopOffset == Min(stopDate - curFrame, frames)
    ensures frames > 0 ==> 0 <= p.startOffset < frames
    ensures frames <= 0 ==> p.startOffset == 0 && (p.toPlay <==> startDate < curFrame)
    ensures frames <= 0 ==> (p.toStop <==> stopDate < curFrame)
  {
    var startIn := InBuffer(startDate, curFrame, frames);
    var toStop := stopDate < curFrame || InBuffer(stopDate, curFrame, frames);
    var startOffset := if startIn then startDate - curFrame else 0;
    var stopOffset := if toStop then stopDate - curFrame else frames;
    StreamPlan(startOffset, stopOffset, stopOffset - startOffset, startIn || curFrame > startDate, toStop)
  }

  /** Whenever a stream is read, the read lies inside the buffer: it starts at
      a non-negative offset, asks for at least one and at most `frames` frames,
      and ends exactly at the end of the buffer. */
  lemma ReadStaysInBuffer(startDate: int, stopDate: int, curFrame: int, frames: int)
    requires frames > 0 && ReadsStream(Plan(startDate, stopDate, curFrame, frames))
    ensures var p := Plan(startDate, stopDate, curFrame, frames);
      0 <= p.startOffset && 0 < p.frameNum <= frames && p.startOffset + p.frameNum == frames
  {
  }

  /** Whenever the stream plays, the frames from `startOffset` for `frameNum`
      frames are exactly the frames of this buffer from the later of the start
      date and the buffer start, up to the earlier of the stop date and the
      buffer end. When the stop date is at or before that first frame the
      window is empty and `frameNum` is zero or negative. */
  lemma ReadCoversPlayWindow(startDate: int, stopDate: int, curFrame: int, frames: int)
    requires frames > 0 && Plan(startDate, stopDate, curFrame, frames).toPlay
    ensures var p := Plan(startDate, stopDate, curFrame, frames);
      && curFrame + p.startOffset == Max(startDate, curFrame)
      && curFrame + p.startOffset + p.frameNum == Min(stopDate, curFrame + frames)
  {
  }

  /** The corrected cycle reads the stream when it plays and there is at least
      one frame before its stop. */
  predicate ReadsThroughStop(p: StreamPlan)
  {
    p.toPlay && p.frameNum > 0
  }

  /** Every read of the corrected cycle lies inside the buffer: it starts at a
      non-negative offset, asks for at least one frame, and ends at or before
      the buffer end, at the stop offset when the stream stops here. */
  lemma ThroughStopReadStaysInBuffer(startDate: int, stopDate: int, curFrame: int, frames: int)
    requires ReadsThroughStop(Plan(startDate, stopDate, curFrame, frames))
    ensures var p := Plan(startDate, stopDate, curFrame, frames);
      && frames > 0 && 0 <= p.startOffset && 0 < p.frameNum
      && p.startOffset + p.frameNum <= frames
      && (p.toStop ==> curFrame + p.startOffset + p.frameNum == stopDate)
  {
  }

  /** A stream starting at frame 100 and stopping at frame 180, in the buffer
      [64, 192): 80 frames from offset 36 are due, but since the stop falls in
      this buffer the command as written is retired without reading them; the
      corrected cycle reads them. */
  lemma StartAndStopInOneBuffer()
    ensures Plan(100, 180, 64, 128) == StreamPlan(36, 116, 80, true, true)
    ensures !ReadsStream(Plan(100, 180, 64, 128))
    ensures ReadsThroughStop(Plan(100, 180, 64, 128))
  {
  }

  /** A stream whose stop date (frame 10) passed before the buffer [64, 192):
      its plan asks for a negative count, and the corrected cycle does not
      read it. */
  lemma StopAlreadyPassed()
    ensures Plan(0, 10, 64, 128) == StreamPlan(0, -54, -54, true, true)
    ensures !ReadsThroughStop(Plan(0, 10, 64, 128))
  {
  }

  /** `TStreamCommand`: play a stream between a start and a stop date. */
  class StreamCommand {
    const stream: RendererStream
    var startDate: SymbolicDate
    var stopDate: SymbolicDate

    constructor (stream: RendererStream, startDate: SymbolicDate, stopDate: SymbolicDate)
      ensures this.stream == stream && this.startDate == startDate && this.stopDate == stopDate
    {
      this.stream := stream;
      this.startDate := startDate;
      this.stopDate := stopDate;
    }

    method SetStartDate(date: SymbolicDate)
      modifies this
      ensures startDate == date && stopDate == old(stopDate)
    {
      startDate := date;
    }

    method SetStopDate(date: SymbolicDate)
      modifies this
      ensures stopDate == date && startDate == old(startDate)
    {
      stopDate := date;
    }

    /** One audio cycle of the command. Both dates are looked up through the
        cycle's cache, so each is resolved only if no earlier command of the
        cycle resolved it. A stream that does not play yet is left queued (true)
        and not read; a playing stream that stops in this buffer is retired
        (false) without being read; otherwise `frameNum` frames are read at
        `startOffset`, and the command is retired iff fewer were produced. */
    method Execute(dateMap: DateMap, resolve: SymbolicDate -> int, curFrame: int, frames: int)
      returns (keep: bool)
      modifies dateMap, stream
      ensures startDate in dateMap.entries && stopDate in dateMap.entries
      ensures dateMap.entries.Keys == old(dateMap.entries.Keys) + {startDate, stopDate}
      ensures forall d :: d in old(dateMap.entries) ==> dateMap.entries[d] == old(dateMap.entries[d])
      ensures old(dateMap.Agrees(resolve)) ==> dateMap.Agrees(resolve)
      ensures dateMap.resolved == old(dateMap.resolved)
        + (if startDate in old(dateMap.entries) then [] else [startDate])
        + (if stopDate in old(dateMap.entries) || stopDate == startDate then [] else [stopDate])
      ensures startDate in old(dateMap.entries) && stopDate in old(dateMap.entries) ==>
        dateMap.resolved == old(dateMap.resolved)
      ensures |dateMap.resolved| <= |old(dateMap.resolved)| + 2
      ensures stream.stream == old(stream.stream)
      ensures var p := Plan(dateMap.entries[startDate], dateMap.entries[stopDate], curFrame, frames);
        && (!ReadsStream(p) ==> stream.requests == old(stream.requests) && keep == !p.toPlay)
        && (ReadsStream(p) ==>
              && |stream.requests| == |old(stream.requests)| + 1
              && stream.requests[..|old(stream.requests)|] == old(stream.requests)
              && stream.requests[|old(stream.requests)|].framesNum == p.frameNum
              && stream.requests[|old(stream.requests)|].framePos == p.startOffset
              && (keep <==> stream.requests[|old(stream.requests)|].produced >= p.frameNum))
    {
      // Keeps the same value for the entire audio cycle
      var start := GetDate(dateMap, startDate, resolve);
      var stop := GetDate(dateMap, stopDate, resolve);

      var startOffset := 0;
      var stopOffset := frames;
      var frameNum;
      var toPlay := false;
      var toStop := false;
      var res := 0;

      if InBuffer(start, curFrame, frames) {
        startOffset := start - curFrame;
        toPlay := true;
      } else if curFrame > start {
        toPlay := true;
      }

      if stop < curFrame || InBuffer(stop, curFrame, frames) {
        stopOffset := stop - curFrame;
        toStop := true;
      }

      frameNum := stopOffset - startOffset;

      keep := true;
      if toPlay {
        var ended := toStop;
        if !ended {
          res := stream.Read(frameNum, startOffset);
          ended := res < frameNum;
        }
        if ended {
          keep := false;
        }
      }
      assert StreamPlan(startOffset, stopOffset, frameNum, toPlay, toStop) == Plan(start, stop, curFrame, frames);
    }

    /** One audio cycle as it is evidently meant to run: a stream that plays
        in this buffer is read, `frameNum` frames at `startOffset`, whenever
        that is at least one frame, so a stream that stops here still plays up
        to its stop offset; the command is then retired iff it stopped here or
        the stream produced fewer frames. */
    method ExecuteThroughStop(dateMap: DateMap, resolve: SymbolicDate -> int, curFrame: int, frames: int)
      returns (keep: bool)
      modifies dateMap, stream
      ensures startDate in dateMap.entries && stopDate in dateMap.entries
      ensures dateMap.entries.Keys == old(dateMap.entries.Keys) + {startDate, stopDate}
      ensures forall d :: d in old(dateMap.entries) ==> dateMap.entries[d] == old(dateMap.entries[d])
      ensures old(dateMap.Agrees(resolve)) ==> dateMap.Agrees(resolve)
      ensures dateMap.resolved == old(dateMap.resolved)
        + (if startDate in old(dateMap.entries) then [] else [startDate])
        + (if stopDate in old(dateMap.entries) || stopDate == startDate then [] else [stopDate])
      ensures startDate in old(dateMap.entries) && stopDate in old(dateMap.entries) ==>
        dateMap.resolved == old(dateMap.resolved)
      ensures |dateMap.resolved| <= |old(dateMap.resolved)| + 2
      ensures stream.stream == old(stream.stream)
      ensures var p := Plan(dateMap.entries[startDate], dateMap.entries[stopDate], curFrame, frames);
        && (!ReadsThroughStop(p) ==> stream.requests == old(stream.requests) && (keep <==> !p.toStop || !p.toPlay))
        && (ReadsThroughStop(p) ==>
              && |stream.requests| == |old(stream.requests)| + 1
              && stream.requests[..|old(stream.requests)|] == old(stream.requests)
              && stream.requests[|old(stream.requests)|].framesNum == p.frameNum
              && stream.requests[|old(stream.requests)|].framePos == p.startOffset
              && 0 <= p.startOffset && 0 < p.frameNum && p.startOffset + p.frameNum <= frames
              && (keep <==> !p.toStop && stream.requests[|old(stream.requests)|].produced >= p.frameNum))
    {
      var start := GetDate(dateMap, startDate, resolve);
      var stop := GetDate(dateMap, stopDate, resolve);
      var p := Plan(start, stop, curFrame, frames);
      keep := true;
      if p.toPlay {
        var res := 0;
        if p.frameNum > 0 {
          ThroughStopReadStaysInBuffer(start, stop, curFrame, frames);
          res := stream.Read(p.frameNum, p.startOffset);
        }
        keep := !p.toStop && res >= p.frameNum;
      }
    }
  }
}
