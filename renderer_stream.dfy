/** The real-time renderer wrapper (TRTRendererAudioStream), whose code is not
    part of this model: it holds one stream, and the only thing known of its
    `Read` is that it produces between zero and the requested number of frames.
    Each call is recorded, so callers can state when and how it was read. */
module Renderer {
  import opened AudioStreams

  /** One call of `Read`: the frames requested, the position in the shared
      buffer, and the frames produced. */
  datatype ReadRequest = ReadRequest(framesNum: int, framePos: int, produced: int)

  class RendererStream {
    var stream: Ptr
    var requests: seq<ReadRequest>

    constructor ()
      ensures stream == Null && requests == []
    {
      stream := Null;
      requests := [];
    }

    /** Installs `s` as the wrapped stream. */
    method SetStream(s: Ptr)
      modifies this
      ensures stream == s && requests == old(requests)
    {
      stream := s;
    }

    /** Reads up to `framesNum` frames into the shared buffer at `framePos`;
        a request for no frames (or a negative number) produces none. */
    method Read(framesNum: int, framePos: int) returns (res: int)
      modifies this
      ensures 0 <= res <= if framesNum < 0 then 0 else framesNum
      ensures stream == old(stream)
      ensures requests == old(requests) + [ReadRequest(framesNum, framePos, res)]
    {
      res :| 0 <= res <= if framesNum < 0 then 0 else framesNum;
      requests := requests + [ReadRequest(framesNum, framePos, res)];
    }
  }
}
