/**
 * The client side of the solving stream (frontend/App.jsx, handleSolveStream):
 * decoded text chunks are appended to a carry-over buffer, the buffer is cut
 * at every blank line ("\n\n"), each cut-off piece is trimmed, and a piece that
 * starts with `data:` has the rest handed to `JSON.parse`; whatever that returns
 * is appended to `steps`, and a parse failure is swallowed.
 *
 * `JSON.parse` is a parameter `parse: string -> Option<V>` (None = it throws).
 */
module EventStream {
  import opened Wrappers
  import opened Strings
  import opened Sequences

  /** A blank line, i.e. two newline characters, starts at index i of s. */
  predicate DelimAt(s: string, i: int) {
    0 <= i && i + 1 < |s| && s[i] == '\n' && s[i + 1] == '\n'
  }

  predicate HasDelim(s: string) {
    exists i | 0 <= i < |s| :: DelimAt(s, i)
  }

  /** `s.indexOf("\n\n")`: the first position of a blank line, or -1. */
  function IndexOfDelim(s: string): (r: int)
    ensures r == -1 || DelimAt(s, r)
  {
    if |s| < 2 then
      -1
    else if s[0] == '\n' && s[1] == '\n' then
      0
    else
      var k := IndexOfDelim(s[1..]);
      if k < 0 then -1 else k + 1
  }

  /** `indexOf` finds the first blank line, and -1 means there is none. */
  lemma {:induction false} IndexOfDelimFirst(s: string)
    ensures IndexOfDelim(s) == -1 <==> !HasDelim(s)
    ensures forall j :: 0 <= j < IndexOfDelim(s) ==> !DelimAt(s, j)
  {
    if |s| >= 2 && !(s[0] == '\n' && s[1] == '\n') {
      IndexOfDelimFirst(s[1..]);
      forall j | 1 <= j < |s| ensures DelimAt(s, j) == DelimAt(s[1..], j - 1) {
      }
      if IndexOfDelim(s) == -1 {
        assert !DelimAt(s, 0);
      }
    } else if |s| >= 2 {
      assert DelimAt(s, 0);
    }
  }

  /**
   * The untrimmed pieces the decode loop cuts off a buffer holding `s`,
   * in order: the text before each blank line.
   */
  function Frames(s: string): (fs: seq<string>)
    ensures 2 * |fs| <= |s|
    decreases |s|
  {
    var i := IndexOfDelim(s);
    if i < 0 then [] else [s[..i]] + Frames(s[i + 2..])
  }

  /** What stays in the buffer once no blank line is left in it. */
  function Rest(s: string): (r: string)
    ensures |r| <= |s|
    decreases |s|
  {
    var i := IndexOfDelim(s);
    if i < 0 then s else Rest(s[i + 2..])
  }

  /** Each frame uses up its closing blank line, and what is left over stays in the buffer. */
  lemma {:induction false} FramesRestBound(s: string)
    ensures 2 * |Frames(s)| + |Rest(s)| <= |s|
    decreases |s|
  {
    var i := IndexOfDelim(s);
    if i >= 0 {
      var t := s[i + 2..];
      FramesCut(s, i);
      FramesRestBound(t);
      assert |t| == |s| - i - 2;
    }
  }

  /** The decode loop stops only once the buffer holds no blank line. */
  lemma {:induction false} RestHasNoDelim(s: string)
    ensures !HasDelim(Rest(s))
    decreases |s|
  {
    var i := IndexOfDelim(s);
    if i < 0 {
      IndexOfDelimFirst(s);
    } else {
      RestHasNoDelim(s[i + 2..]);
    }
  }

  /** Each frame followed by the delimiter that closed it. */
  function JoinFrames(fs: seq<string>): string {
    if fs == [] then "" else fs[0] + "\n\n" + JoinFrames(fs[1..])
  }

  /**
   * One trimmed frame: kept only when it starts with `data:`, in which case
   * the five-character prefix is dropped and the remainder is parsed.
   */
  function ParseFrame<V>(frame: string, parse: string -> Option<V>): (r: Option<V>)
    ensures !StartsWith(Trim(frame), "data:") ==> r == None
  {
    var chunk := Trim(frame);
    if StartsWith(chunk, "data:") then parse(chunk[5..]) else None
  }

  /** The step a frame contributes: none, or the parsed value. */
  function Kept<V>(o: Option<V>): seq<V> {
    if o.Some? then [o.value] else []
  }

  /** The steps a run of frames contributes, in frame order. */
  function StepsOf<V>(frames: seq<string>, parse: string -> Option<V>): (steps: seq<V>)
    ensures |steps| <= |frames|
  {
    if frames == [] then [] else Kept(ParseFrame(frames[0], parse)) + StepsOf(frames[1..], parse)
  }

  /**
   * The frames the decoder emits when it starts with buffer `buf` and is fed
   * `chunks` one at a time, each chunk drained before the next is read.
   */
  function Emitted(buf: string, chunks: seq<string>): (fs: seq<string>)
    ensures 2 * |fs| <= |buf| + |Concat(chunks)|
    decreases chunks
  {
    if chunks == [] then
      []
    else
      FramesRestBound(buf + chunks[0]);
      Frames(buf + chunks[0]) + Emitted(Rest(buf + chunks[0]), chunks[1..])
  }

  // ---------------------------------------------------------------- lemmas

  /** Cutting `s` into frames and a rest loses nothing: gluing them back gives `s`. */
  lemma {:induction false} SplitReassembles(s: string)
    ensures JoinFrames(Frames(s)) + Rest(s) == s
    decreases |s|
  {
    var i := IndexOfDelim(s);
    if i >= 0 {
      var f, t := s[..i], s[i + 2..];
      SplitReassembles(t);
      JoinFramesCons(f, Frames(t));
      CutAtDelim(s, i);
      SeqAssoc(f + "\n\n", JoinFrames(Frames(t)), Rest(t));
    }
  }

  lemma JoinFramesCons(f: string, fs: seq<string>)
    ensures JoinFrames([f] + fs) == f + "\n\n" + JoinFrames(fs)
  {
    assert ([f] + fs)[1..] == fs;
  }

  lemma CutAtDelim(s: string, i: int)
    requires DelimAt(s, i)
    ensures s == s[..i] + "\n\n" + s[i + 2..]
  {
    assert s[i..i + 2] == "\n\n";
    assert s == s[..i] + s[i..i + 2] + s[i + 2..];
  }

  /** A blank line with none before it is the one `indexOf` finds. */
  lemma IndexOfDelimIs(s: string, i: int)
    requires DelimAt(s, i)
    requires forall j :: 0 <= j < i ==> !DelimAt(s, j)
    ensures IndexOfDelim(s) == i
  {
    IndexOfDelimFirst(s);
  }

  /** The first blank line of `a` is still the first one once more text is appended. */
  lemma IndexOfDelimAppend(a: string, b: string)
    requires IndexOfDelim(a) >= 0
    ensures IndexOfDelim(a + b) == IndexOfDelim(a)
  {
    var i := IndexOfDelim(a);
    IndexOfDelimFirst(a);
    assert DelimAt(a + b, i);
    forall j | 0 <= j < i ensures !DelimAt(a + b, j) {
      assert DelimAt(a + b, j) == DelimAt(a, j);
    }
    IndexOfDelimIs(a + b, i);
  }

  /** One turn of the decode loop: the first frame is cut off, the rest is decoded further. */
  lemma FramesCut(s: string, i: int)
    requires i == IndexOfDelim(s) && i >= 0
    ensures Frames(s) == [s[..i]] + Frames(s[i + 2..])
    ensures Rest(s) == Rest(s[i + 2..])
  {
    assert IndexOfDelim(s) == i;
  }

  lemma SlicesOfAppend(a: string, b: string, i: int)
    requires 0 <= i && i + 2 <= |a|
    ensures (a + b)[..i] == a[..i]
    ensures (a + b)[i + 2..] == a[i + 2..] + b
  {
  }

  /**
   * Appending text to the buffer: the frames already complete come first,
   * then the frames found in the old rest followed by the new text.
   */
  lemma {:induction false} FramesAppend(a: string, b: string)
    ensures Frames(a + b) == Frames(a) + Frames(Rest(a) + b)
    ensures Rest(a + b) == Rest(Rest(a) + b)
    decreases |a|
  {
    var i := IndexOfDelim(a);
    if i >= 0 {
      var f, t := a[..i], a[i + 2..];
      IndexOfDelimAppend(a, b);
      SlicesOfAppend(a, b, i);
      FramesAppend(t, b);
      calc {
        Frames(a + b);
      == { FramesCut(a + b, i); }
        [f] + Frames(t + b);
      ==
        [f] + (Frames(t) + Frames(Rest(t) + b));
      == { SeqAssoc([f], Frames(t), Frames(Rest(t) + b)); FramesCut(a, i); }
        Frames(a) + Frames(Rest(a) + b);
      }
      calc {
        Rest(a + b);
      == { FramesCut(a + b, i); }
        Rest(t + b);
      ==
        Rest(Rest(t) + b);
      == { FramesCut(a, i); }
        Rest(Rest(a) + b);
      }
    } else {
      assert Frames(a) == [] && Rest(a) == a;
    }
  }

  lemma {:induction false} ConcatSnoc(chunks: seq<string>, c: string)
    ensures Concat(chunks + [c]) == Concat(chunks) + c
  {
    if chunks != [] {
      assert (chunks + [c])[1..] == chunks[1..] + [c];
      ConcatSnoc(chunks[1..], c);
    }
  }

  /**
   * Chunk-at-a-time decoding emits exactly the frames of the concatenated text,
   * whatever the chunk boundaries (also inside a delimiter).
   */
  lemma {:induction false} EmittedIsFramesOfConcat(buf: string, chunks: seq<string>)
    requires !HasDelim(buf)
    ensures Emitted(buf, chunks) == Frames(buf + Concat(chunks))
    decreases chunks
  {
    if chunks == [] {
      assert buf + Concat(chunks) == buf;
    } else {
      var s := buf + chunks[0];
      RestHasNoDelim(s);
      EmittedIsFramesOfConcat(Rest(s), chunks[1..]);
      FramesAppend(s, Concat(chunks[1..]));
      SeqAssoc(buf, chunks[0], Concat(chunks[1..]));
    }
  }

  /** Two chunkings of the same text yield the same frames and the same steps. */
  lemma ChunkBoundaryIndependence<V>(c1: seq<string>, c2: seq<string>, parse: string -> Option<V>)
    requires Concat(c1) == Concat(c2)
    ensures Emitted("", c1) == Emitted("", c2)
    ensures StepsOf(Emitted("", c1), parse) == StepsOf(Emitted("", c2), parse)
  {
    EmittedIsFramesOfConcat("", c1);
    EmittedIsFramesOfConcat("", c2);
  }

  /**
   * Frames that contain no blank line and do not end in a newline, each closed
   * by "\n\n", and followed by a tail without a blank line, decode to exactly
   * those frames; the tail stays in the buffer and is never emitted.
   */
  predicate WellFormedFrame(f: string) {
    !HasDelim(f) && (f == [] || f[|f| - 1] != '\n')
  }

  lemma {:induction false} FramesOfJoin(fs: seq<string>, tail: string)
    requires forall k :: 0 <= k < |fs| ==> WellFormedFrame(fs[k])
    requires !HasDelim(tail)
    ensures Frames(JoinFrames(fs) + tail) == fs
    ensures Rest(JoinFrames(fs) + tail) == tail
  {
    if fs == [] {
      assert JoinFrames(fs) + tail == tail;
    } else {
      var f, more := fs[0], JoinFrames(fs[1..]) + tail;
      var s := JoinFrames(fs) + tail;
      assert s == f + "\n\n" + more by {
        SeqAssoc(f + "\n\n", JoinFrames(fs[1..]), tail);
      }
      FirstDelimAfterFrame(f, more);
      FramesCut(s, |f|);
      assert forall k :: 0 <= k < |fs[1..]| ==> WellFormedFrame(fs[1..][k]) by {
        forall k | 0 <= k < |fs[1..]| ensures WellFormedFrame(fs[1..][k]) {
          assert fs[1..][k] == fs[k + 1];
        }
      }
      FramesOfJoin(fs[1..], tail);
      HeadTail(fs);
    }
  }

  /** The blank line that closes a well-formed frame is the first one. */
  lemma FirstDelimAfterFrame(f: string, more: string)
    requires WellFormedFrame(f)
    ensures IndexOfDelim(f + "\n\n" + more) == |f|
    ensures (f + "\n\n" + more)[..|f|] == f
    ensures (f + "\n\n" + more)[|f| + 2..] == more
  {
    var s := f + "\n\n" + more;
    assert DelimAt(s, |f|);
    forall j | 0 <= j < |f| ensures !DelimAt(s, j) {
      if j + 1 < |f| {
        assert DelimAt(s, j) == DelimAt(f, j);
      } else {
        assert s[j] == f[|f| - 1];
      }
    }
    IndexOfDelimIs(s, |f|);
  }

  /** A response delivered in one chunk emits the frames of that chunk. */
  lemma EmittedOne(s: string)
    ensures Emitted("", [s]) == Frames(s)
  {
    assert "" + s == s;
    assert Emitted(Rest(s), []) == [];
  }

  /**
   * However the response is chunked, a trailing fragment with no closing
   * blank line contributes no frame: exactly the closed frames are emitted.
   */
  lemma TruncatedTailDropped(fs: seq<string>, tail: string, chunks: seq<string>)
    requires forall k :: 0 <= k < |fs| ==> WellFormedFrame(fs[k])
    requires !HasDelim(tail)
    requires Concat(chunks) == JoinFrames(fs) + tail
    ensures Emitted("", chunks) == fs
  {
    FramesOfJoin(fs, tail);
    EmittedIsFramesOfConcat("", chunks);
    assert "" + Concat(chunks) == Concat(chunks);
  }

  lemma {:induction false} StepsOfAppend<V>(a: seq<string>, b: seq<string>, parse: string -> Option<V>)
    ensures StepsOf(a + b, parse) == StepsOf(a, parse) + StepsOf(b, parse)
  {
    if a != [] {
      TailOfAppend(a, b);
      StepsOfAppend(a[1..], b, parse);
      SeqAssoc(Kept(ParseFrame(a[0], parse)), StepsOf(a[1..], parse), StepsOf(b, parse));
    } else {
      assert a + b == b;
    }
  }

  /** Draining after each chunk shows the same steps as draining once after both. */
  lemma DrainAppend<V>(before: string, chunk: string, parse: string -> Option<V>)
    ensures Rest(before + chunk) == Rest(Rest(before) + chunk)
    ensures StepsOf(Frames(before + chunk), parse)
            == StepsOf(Frames(before), parse) + StepsOf(Frames(Rest(before) + chunk), parse)
  {
    FramesAppend(before, chunk);
    StepsOfAppend(Frames(before), Frames(Rest(before) + chunk), parse);
  }

  lemma StepsOfCons<V>(f: string, fs: seq<string>, parse: string -> Option<V>)
    ensures StepsOf([f] + fs, parse) == Kept(ParseFrame(f, parse)) + StepsOf(fs, parse)
  {
    assert ([f] + fs)[0] == f && ([f] + fs)[1..] == fs;
  }

  /**
   * A frame that is not kept (wrong prefix or a payload `JSON.parse` rejects)
   * is dropped silently, and the frames after it are still decoded.
   */
  lemma DroppedFrameSkipped<V>(before: seq<string>, f: string, after: seq<string>, parse: string -> Option<V>)
    requires ParseFrame(f, parse) == None
    ensures StepsOf(before + [f] + after, parse) == StepsOf(before, parse) + StepsOf(after, parse)
  {
    StepsOfAppend(before + [f], after, parse);
    StepsOfAppend(before, [f], parse);
  }

  /** When every frame parses, there is one step per frame, and step k is frame k's parse. */
  lemma {:induction false} StepsOfKept<V>(frames: seq<string>, parse: string -> Option<V>)
    requires forall k :: 0 <= k < |frames| ==> ParseFrame(frames[k], parse).Some?
    ensures |StepsOf(frames, parse)| == |frames|
    ensures forall k :: 0 <= k < |frames| ==> StepsOf(frames, parse)[k] == ParseFrame(frames[k], parse).value
  {
    if frames != [] {
      StepsOfKept(frames[1..], parse);
    }
  }

  // ---------------------------------------------------------------- the handler

  /** What `reader.read()` delivers: decoded chunks, then end-of-stream or a rejection. */
  datatype Body = Body(chunks: seq<string>, aborted: bool)

  /** The outcome of `fetch("/task/solve/stream", ...)`. */
  datatype Response = FetchRejected | Response(ok: bool, body: Option<Body>)

  /** Which `catch` the handler ended in, if any. */
  datatype Failure = NetworkError | SseError | ReadError | RewardError

  datatype Outcome = Skipped | Failed(failure: Failure) | Completed(rewarded: bool)

  /** The App state that handleSolveStream updates, plus its local carry-over buffer. */
  class SolveStream<V> {
    var steps: seq<V>
    var streaming: bool
    var buf: string

    constructor ()
      ensures steps == [] && !streaming && buf == ""
    {
      steps, streaming, buf := [], false, "";
    }

    /** One `reader.read()` result: append the chunk, then cut off every complete frame. */
    method Ingest(chunk: string, parse: string -> Option<V>)
      modifies this`buf, this`steps
      ensures buf == Rest(old(buf) + chunk) && !HasDelim(buf)
      ensures steps == old(steps) + StepsOf(Frames(old(buf) + chunk), parse)
    {
      buf := buf + chunk;
      ghost var all := buf;
      var idx := IndexOfDelim(buf);
      while idx >= 0
        invariant idx == IndexOfDelim(buf)
        invariant Rest(buf) == Rest(all)
        invariant steps + StepsOf(Frames(buf), parse) == old(steps) + StepsOf(Frames(all), parse)
        decreases |buf|
      {
        var frame := buf[..idx];
        ghost var next, before := buf[idx + 2..], steps;
        FramesCut(buf, idx);
        var chunkText := Trim(frame);
        buf := buf[idx + 2..];
        if StartsWith(chunkText, "data:") {
          var json := chunkText[5..];
          match parse(json) {
            case Some(step) => steps := steps + [step];
            case None =>
          }
        }
        assert steps == before + Kept(ParseFrame(frame, parse));
        StepsOfCons(frame, Frames(next), parse);
        SeqAssoc(before, Kept(ParseFrame(frame, parse)), StepsOf(Frames(next), parse));
        idx := IndexOfDelim(buf);
      }
      IndexOfDelimFirst(buf);
    }

    /**
     * The `reader.read()` loop of handleSolveStream: a fresh buffer, then every
     * chunk ingested in arrival order.
     */
    method ReadAll(chunks: seq<string>, parse: string -> Option<V>)
      modifies this`buf, this`steps
      ensures buf == Rest(Concat(chunks))
      ensures steps == old(steps) + StepsOf(Frames(Concat(chunks)), parse)
    {
      buf := "";
      var i := 0;
      while i < |chunks|
        invariant 0 <= i <= |chunks|
        invariant buf == Rest(Concat(chunks[..i]))
        invariant steps == old(steps) + StepsOf(Frames(Concat(chunks[..i])), parse)
      {
        DrainAppend(Concat(chunks[..i]), chunks[i], parse);
        ConcatSnoc(chunks[..i], chunks[i]);
        assert chunks[..i + 1] == chunks[..i] + [chunks[i]];
        Ingest(chunks[i], parse);
        SeqAssoc(old(steps), StepsOf(Frames(Concat(chunks[..i])), parse),
                 StepsOf(Frames(Rest(Concat(chunks[..i])) + chunks[i]), parse));
        i := i + 1;
      }
      assert chunks[..i] == chunks;
    }

    /**
     * handleSolveStream. An empty `text` does nothing. Otherwise `steps` is
     * emptied and `streaming` set before the request; a rejected fetch, a
     * non-ok status or a missing body fails before any chunk is read; chunks
     * are ingested in order; a read rejection keeps the steps already shown;
     * after a clean end the reward request is sent when a user is known.
     * `streaming` is cleared on every path.
     */
    method HandleSolveStream(text: string, res: Response, userId: string, rewardReachable: bool,
                             parse: string -> Option<V>) returns (outcome: Outcome)
      modifies this
      ensures text == "" ==> outcome == Skipped && steps == old(steps)
                             && streaming == old(streaming) && buf == old(buf)
      ensures text != "" ==> !streaming
      ensures text != "" && (res.FetchRejected? || !res.ok || res.body.None?) ==>
                steps == [] && outcome == Failed(if res.FetchRejected? then NetworkError else SseError)
      ensures text != "" && res.Response? && res.ok && res.body.Some? ==>
                steps == StepsOf(Frames(Concat(res.body.value.chunks)), parse)
                && buf == Rest(Concat(res.body.value.chunks))
                && outcome == (if res.body.value.aborted then Failed(ReadError)
                               else if userId != "" && !rewardReachable then Failed(RewardError)
                               else Completed(userId != ""))
    {
      if text == "" {
        return Skipped;
      }
      steps := [];
      streaming := true;
      if res.FetchRejected? {
        streaming := false;
        return Failed(NetworkError);
      }
      if !res.ok || res.body.None? {
        streaming := false;
        return Failed(SseError);
      }
      ReadAll(res.body.value.chunks, parse);
      if res.body.value.aborted {
        outcome := Failed(ReadError);
      } else if userId != "" && !rewardReachable {
        outcome := Failed(RewardError);
      } else {
        outcome := Completed(userId != "");
      }
      streaming := false;
    }
  }
}
