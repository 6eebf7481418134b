/** The reference meaning of a TCP byte stream: messages, each preceded by a two-byte
    length. The listeners of both platforms are proved against these functions. */
module Framing {
  import opened Bytes
  import opened Options

  const LENGTH_SIZE: nat := 2

  // The length a stream announces first, a signed 16-bit integer.
  function DeclaredLength(s: seq<byte>): int
    requires |s| >= LENGTH_SIZE
  {
    Signed(Value(s[..LENGTH_SIZE]), LENGTH_SIZE)
  }

  predicate HasFrame(s: seq<byte>) {
    |s| >= LENGTH_SIZE && 0 <= DeclaredLength(s) <= |s| - LENGTH_SIZE
  }

  function FirstFrame(s: seq<byte>): seq<byte>
    requires HasFrame(s)
  {
    s[LENGTH_SIZE..LENGTH_SIZE + DeclaredLength(s)]
  }

  function AfterFrame(s: seq<byte>): (r: seq<byte>)
    requires HasFrame(s)
    ensures |r| < |s|
  {
    s[LENGTH_SIZE + DeclaredLength(s)..]
  }

  // Every complete frame of the stream, and what is left after the last of them.
  function Frames(s: seq<byte>): seq<seq<byte>>
    decreases |s|
  {
    if HasFrame(s) then [FirstFrame(s)] + Frames(AfterFrame(s)) else []
  }

  function Rest(s: seq<byte>): (r: seq<byte>)
    ensures |r| <= |s|
    decreases |s|
  {
    if HasFrame(s) then Rest(AfterFrame(s)) else s
  }

  // No length met while reading the stream is negative, or above max.
  predicate LengthsWithin(s: seq<byte>, max: int)
    decreases |s|
  {
    |s| >= LENGTH_SIZE ==>
      && 0 <= DeclaredLength(s) <= max
      && (HasFrame(s) ==> LengthsWithin(AfterFrame(s), max))
  }

  lemma FirstOfAppend(s: seq<byte>, t: seq<byte>)
    ensures |s| >= LENGTH_SIZE ==> DeclaredLength(s + t) == DeclaredLength(s)
    ensures HasFrame(s) ==>
              && HasFrame(s + t)
              && FirstFrame(s + t) == FirstFrame(s)
              && AfterFrame(s + t) == AfterFrame(s) + t
  {
    if |s| >= LENGTH_SIZE {
      assert (s + t)[..LENGTH_SIZE] == s[..LENGTH_SIZE];
    }
  }

  // Reading a stream in two pieces: the second reading starts from what the first left.
  lemma {:induction false} ReadInTwo(s: seq<byte>, t: seq<byte>)
    ensures Frames(s + t) == Frames(s) + Frames(Rest(s) + t)
    ensures Rest(s + t) == Rest(Rest(s) + t)
    decreases |s|
  {
    FirstOfAppend(s, t);
    if HasFrame(s) {
      ReadInTwo(AfterFrame(s), t);
    }
  }

  lemma {:induction false} RestHasNoFrame(s: seq<byte>)
    ensures !HasFrame(Rest(s)) && Frames(Rest(s)) == []
    decreases |s|
  {
    if HasFrame(s) {
      RestHasNoFrame(AfterFrame(s));
    }
  }

  lemma {:induction false} LengthsOfPrefix(s: seq<byte>, t: seq<byte>, max: int)
    requires LengthsWithin(s + t, max)
    ensures LengthsWithin(s, max) && LengthsWithin(Rest(s) + t, max)
    decreases |s|
  {
    FirstOfAppend(s, t);
    if HasFrame(s) {
      LengthsOfPrefix(AfterFrame(s), t, max);
    }
  }

  lemma {:induction false} LengthsOfExtension(s: seq<byte>, t: seq<byte>, max: int)
    requires LengthsWithin(s, max) && LengthsWithin(Rest(s) + t, max)
    ensures LengthsWithin(s + t, max)
    decreases |s|
  {
    FirstOfAppend(s, t);
    if HasFrame(s) {
      LengthsOfExtension(AfterFrame(s), t, max);
    }
  }

  predicate FramesFit(s: seq<byte>, max: int) {
    forall f <- Frames(s) :: |f| <= max
  }

  // A frame and its prefix are no longer than the stream they are read from.
  lemma {:induction false} FramesFitInside(s: seq<byte>)
    ensures FramesFit(s, |s| - LENGTH_SIZE)
    decreases |s|
  {
    if HasFrame(s) {
      FramesFitInside(AfterFrame(s));
    }
  }

  lemma FramesFitInTwo(s: seq<byte>, t: seq<byte>, max: int)
    requires FramesFit(s, max) && |Rest(s) + t| <= LENGTH_SIZE + max
    ensures FramesFit(s + t, max)
  {
    ReadInTwo(s, t);
    FramesFitInside(Rest(s) + t);
    hide Frames;
  }

  // A frame as the sender lays it out.
  function Framed(body: seq<byte>): (s: seq<byte>)
  {
    FixedInt(|body|, LENGTH_SIZE) + body
  }

  lemma FramedIsOneFrame(body: seq<byte>, t: seq<byte>)
    requires |body| < 0x8000
    ensures HasFrame(Framed(body) + t)
    ensures FirstFrame(Framed(body) + t) == body && AfterFrame(Framed(body) + t) == t
  {
    RadixValues();
    SignedOfWrap(|body|, LENGTH_SIZE);
    ValueOfLittleEndian(Wrap(|body|, LENGTH_SIZE), LENGTH_SIZE);
    var s := Framed(body) + t;
    assert s[..LENGTH_SIZE] == FixedInt(|body|, LENGTH_SIZE);
    assert s[LENGTH_SIZE..LENGTH_SIZE + |body|] == body;
    assert s[LENGTH_SIZE + |body|..] == t;
  }

  function Concat(parts: seq<seq<byte>>): seq<byte> {
    if parts == [] then [] else parts[0] + Concat(parts[1..])
  }

  lemma {:induction false} ConcatOfAppend(parts: seq<seq<byte>>, more: seq<seq<byte>>)
    ensures Concat(parts + more) == Concat(parts) + Concat(more)
  {
    if parts == [] {
      assert parts + more == more;
    } else {
      assert (parts + more)[1..] == parts[1..] + more;
      ConcatOfAppend(parts[1..], more);
      Associative(parts[0], Concat(parts[1..]), Concat(more));
    }
  }

  function FramedAll(bodies: seq<seq<byte>>): seq<byte> {
    if bodies == [] then [] else Framed(bodies[0]) + FramedAll(bodies[1..])
  }

  // The parse is a left inverse of framing.
  lemma {:induction false} FramesOfFramed(bodies: seq<seq<byte>>, max: nat)
    requires forall b <- bodies :: |b| < 0x8000 && |b| <= max
    ensures Frames(FramedAll(bodies)) == bodies && Rest(FramedAll(bodies)) == []
    ensures LengthsWithin(FramedAll(bodies), max)
  {
    if bodies != [] {
      FramedIsOneFrame(bodies[0], FramedAll(bodies[1..]));
      FramesOfFramed(bodies[1..], max);
    }
  }

  // One reading step over a freshly arrived chunk, keeping an unparsed tail.
  function ReadChunks(tail: seq<byte>, chunks: seq<seq<byte>>): seq<seq<byte>>
    decreases |chunks|
  {
    if chunks == [] then []
    else Frames(tail + chunks[0]) + ReadChunks(Rest(tail + chunks[0]), chunks[1..])
  }

  lemma {:induction false} ReadChunksIsFrames(tail: seq<byte>, chunks: seq<seq<byte>>)
    requires !HasFrame(tail)
    ensures ReadChunks(tail, chunks) == Frames(tail + Concat(chunks))
    decreases |chunks|
  {
    if chunks == [] {
      assert tail + [] == tail;
    } else {
      hide Frames, Rest, HasFrame;
      var s := tail + chunks[0];
      RestHasNoFrame(s);
      ReadChunksIsFrames(Rest(s), chunks[1..]);
      ReadInTwo(s, Concat(chunks[1..]));
      Associative(tail, chunks[0], Concat(chunks[1..]));
    }
  }

  // However a stream is split, the same frames come out.
  lemma ChunkingDoesNotMatter(chunks: seq<seq<byte>>, chunks': seq<seq<byte>>)
    requires Concat(chunks) == Concat(chunks')
    ensures ReadChunks([], chunks) == ReadChunks([], chunks')
  {
    ReadChunksIsFrames([], chunks);
    ReadChunksIsFrames([], chunks');
  }

  // The requests a producer makes of a row of frames; the session ends at the first
  // frame it refuses (the source's null).
  function Requests<T>(produce: seq<byte> -> Option<T>, frames: seq<seq<byte>>): seq<T> {
    if frames == [] || produce(frames[0]).None? then []
    else [produce(frames[0]).value] + Requests(produce, frames[1..])
  }

  predicate AllAccepted<T>(produce: seq<byte> -> Option<T>, frames: seq<seq<byte>>) {
    forall f <- frames :: produce(f).Some?
  }

  lemma {:induction false} RequestsOfAppend<T>(produce: seq<byte> -> Option<T>, fs: seq<seq<byte>>, gs: seq<seq<byte>>)
    ensures AllAccepted(produce, fs) ==> Requests(produce, fs + gs) == Requests(produce, fs) + Requests(produce, gs)
    ensures !AllAccepted(produce, fs) ==> Requests(produce, fs + gs) == Requests(produce, fs)
  {
    if fs == [] {
      assert fs + gs == gs;
    } else {
      assert (fs + gs)[1..] == fs[1..] + gs;
      RequestsOfAppend(produce, fs[1..], gs);
    }
  }
}
