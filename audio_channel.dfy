/** One mixer voice (TAudioChannel): a stream played through a fade wrapper
    into a scratch buffer, with volume, pan and output routing.

    The fade wrapper (TFadeAudioStream) and the renderer wrapper are foreign
    code: the fade wrapper is an abstract object whose status and frame can
    be read, and whose operations are recorded in order as events. */
module AudioChannel {
  import opened AudioStreams
  import opened Renderer

  /** Fade length used by `SetStream`; its value lives in a header that is not
      part of this model. */
  const FADE_TIME1: int
  /** Initial volume and pan of a channel (header values, not part of this model). */
  const DEFAULT_VOL: real
  const DEFAULT_PAN: real
  /** The fade wrapper's idle status `TFadeAudioStream::kIdle`. */
  const kIdle: int

  /** A call made on the fade wrapper. `Read` records the scratch buffer as it
      was handed over, before the wrapper wrote into it. */
  datatype FadeEvent =
    | SetStreamEvent(stream: Ptr, fadeIn: int, fadeOut: int)
    | FadeInEvent
    | FadeOutEvent
    | ResetEvent
    | ReadEvent(framesNum: int, framePos: int, channels: int, given: seq<real>, produced: int)

  /** The fade wrapper, `TFadeAudioStream`, seen from the channel. */
  class FadeStream {
    var stream: Ptr
    var status: int
    var frame: int
    var events: seq<FadeEvent>

    constructor ()
      ensures stream == Null && events == []
    {
      stream := Null;
      events := [];
    }

    predicate IsIdle()
      reads this
    {
      status == kIdle
    }

    method SetStream(s: Ptr, fadeIn: int, fadeOut: int)
      modifies this
      ensures stream == s && events == old(events) + [SetStreamEvent(s, fadeIn, fadeOut)]
    {
      stream := s;
      events := events + [SetStreamEvent(s, fadeIn, fadeOut)];
    }

    method FadeIn()
      modifies this
      ensures stream == old(stream) && events == old(events) + [FadeInEvent]
    {
      events := events + [FadeInEvent];
    }

    method FadeOut()
      modifies this
      ensures stream == old(stream) && events == old(events) + [FadeOutEvent]
    {
      events := events + [FadeOutEvent];
    }

    method Reset()
      modifies this
      ensures stream == old(stream) && events == old(events) + [ResetEvent]
    {
      events := events + [ResetEvent];
    }

    /** Fills up to `framesNum` frames of `buffer` from position `framePos`
        and returns how many it produced. */
    method Read(buffer: array<real>, framesNum: int, framePos: int, channels: int) returns (res: int)
      modifies this, buffer
      ensures 0 <= res <= if framesNum < 0 then 0 else framesNum
      ensures stream == old(stream)
      ensures events == old(events) + [ReadEvent(framesNum, framePos, channels, old(buffer[..]), res)]
    {
      res :| 0 <= res <= if framesNum < 0 then 0 else framesNum;
      events := events + [ReadEvent(framesNum, framePos, channels, buffer[..], res)];
    }
  }

  /** The record `GetInfo` fills in. */
  class ChannelInfo {
    var status: int
    var curFrame: int
    var vol: real
    var pan: real
    var leftOut: int
    var rightOut: int
  }

  function Zeros(n: nat): (r: seq<real>)
    ensures |r| == n && forall i :: 0 <= i < n ==> r[i] == 0.0
  {
    seq(n, _ => 0.0)
  }

  class Channel {
    var stream: Ptr
    var inserted: bool
    var vol: real
    var pan: real
    var leftOut: int
    var rightOut: int
    const renderer: RendererStream
    const fade: FadeStream
    /** `fMixBuffer`, holding `bufferSize` frames of `outputs` channels. */
    const mixBuffer: array<real>
    const bufferSize: nat
    const outputs: nat

    /** The three stream slots always hold the same stream. */
    ghost predicate Valid()
      reads this, renderer, fade
    {
      && renderer.stream == stream
      && fade.stream == stream
      && mixBuffer.Length == bufferSize * outputs
    }

    /** `TAudioChannel()`, with the global buffer size and output count as
        parameters. */
    constructor (bufferSize: nat, outputs: nat)
      ensures Valid() && fresh(renderer) && fresh(fade) && fresh(mixBuffer)
      ensures this.bufferSize == bufferSize && this.outputs == outputs
      ensures stream == Null && !inserted
      ensures vol == DEFAULT_VOL && pan == DEFAULT_PAN
      ensures leftOut == 0 && rightOut == 1
      ensures fade.events == [] && renderer.requests == []
    {
      this.bufferSize := bufferSize;
      this.outputs := outputs;
      renderer := new RendererStream();
      fade := new FadeStream();
      mixBuffer := new real[bufferSize * outputs];
      stream := Null;
      inserted := false;
      pan := DEFAULT_PAN;
      vol := DEFAULT_VOL;
      leftOut := 0;
      rightOut := 1;
    }

    /** `GetStream`: the channel's stream, which on a valid channel is also
        the one both wrappers hold. */
    function GetStream(): (r: Ptr)
      reads this, renderer, fade
      ensures Valid() ==> r == fade.stream && r == renderer.stream
    {
      stream
    }

    /** `SetStream`: installs `s` in both wrappers, the fade wrapper with fade
        lengths `FADE_TIME1`, and in the channel. The previous stream is not
        freed. */
    method SetStream(s: Ptr)
      requires Valid()
      modifies this, renderer, fade
      ensures Valid() && GetStream() == s
      ensures fade.events == old(fade.events) + [SetStreamEvent(s, FADE_TIME1, FADE_TIME1)]
      ensures renderer.requests == old(renderer.requests)
      ensures inserted == old(inserted) && vol == old(vol) && pan == old(pan)
      ensures leftOut == old(leftOut) && rightOut == old(rightOut)
    {
      renderer.SetStream(s);
      fade.SetStream(s, FADE_TIME1, FADE_TIME1);
      stream := s;
    }

    /** `SoundOn`: starts a fade-in only on a channel with a stream whose fade
        wrapper is idle. */
    method SoundOn()
      requires Valid()
      modifies fade
      ensures Valid()
      ensures if stream.Ref? && old(fade.IsIdle()) then fade.events == old(fade.events) + [FadeInEvent]
              else unchanged(fade)
    {
      if stream.Ref? && fade.IsIdle() {
        fade.FadeIn();
      }
    }

    /** `SoundOff`: starts a fade-out only on a channel with a stream whose fade
        wrapper is not idle. */
    method SoundOff()
      requires Valid()
      modifies fade
      ensures Valid()
      ensures if stream.Ref? && !old(fade.IsIdle()) then fade.events == old(fade.events) + [FadeOutEvent]
              else unchanged(fade)
    {
      if stream.Ref? && !fade.IsIdle() {
        fade.FadeOut();
      }
    }

    /** `Reset`: resets the fade wrapper only on a channel with a stream. */
    method Reset()
      requires Valid()
      modifies fade
      ensures Valid()
      ensures if stream.Ref? then fade.events == old(fade.events) + [ResetEvent] else unchanged(fade)
    {
      if stream.Ref? {
        fade.Reset();
      }
    }

    /** `GetInfo`: copies the fade status and frame and the channel's settings
        into `info`, and changes nothing else. */
    method GetInfo(info: ChannelInfo)
      modifies info
      ensures info.status == fade.status && info.curFrame == fade.frame
      ensures info.vol == vol && info.pan == pan
      ensures info.leftOut == leftOut && info.rightOut == rightOut
    {
      info.status := fade.status;
      info.curFrame := fade.frame;
      info.vol := vol;
      info.pan := pan;
      info.leftOut := leftOut;
      info.rightOut := rightOut;
    }

    /** `Mix`: clears the whole scratch buffer, has the fade wrapper read
        `framesNum` frames into it from position 0, and reports whether the
        wrapper produced all of them (the channel stops when it did not). */
    method Mix(framesNum: int, channels: int) returns (more: bool)
      requires Valid()
      modifies mixBuffer, fade
      ensures Valid()
      ensures |fade.events| == |old(fade.events)| + 1
      ensures fade.events[..|old(fade.events)|] == old(fade.events)
      ensures var e := fade.events[|old(fade.events)|];
        && e.ReadEvent? && e.framesNum == framesNum && e.framePos == 0 && e.channels == channels
        && e.given == Zeros(mixBuffer.Length)
        && (more <==> e.produced == framesNum)
    {
      for i := 0 to mixBuffer.Length
        invariant forall j :: 0 <= j < i ==> mixBuffer[j] == 0.0
        invariant fade.events == old(fade.events) && fade.stream == old(fade.stream)
      {
        mixBuffer[i] := 0.0;
      }
      assert mixBuffer[..] == Zeros(mixBuffer.Length);
      var res := fade.Read(mixBuffer, framesNum, 0, channels);
      more := res == framesNum;
    }
  }
}
