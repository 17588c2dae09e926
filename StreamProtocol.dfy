/**
 * The solving stream end to end: the frames the backend's `gen()` writes,
 * read by the client's decode loop. As written, every backend frame starts
 * with an `event:` line, so the client's `startsWith("data:")` test rejects
 * all of them and no step ever reaches the page. A backend that writes one
 * `data:` line per step is read back step for step.
 *
 * `encode` is `json.dumps` of a step and `parse` is the client's `JSON.parse`;
 * all that is assumed of them is what JSON guarantees: an encoded step is a
 * single line, non-empty, ending in a non-blank character ('}'), and parsing
 * it gives the step back.
 */
module StreamProtocol {
  import opened Wrappers
  import opened Strings
  import opened EventStream
  import opened Backend
  import opened Sequences

  /** What a JSON text always is: one line, non-empty, ending in a non-blank character. */
  predicate JsonLine(json: string) {
    NoNewline(json) && json != [] && !IsSpace(json[|json| - 1])
  }

  /** `json.dumps` of a step is always a JSON line. */
  ghost predicate SingleLineEncoder(encode: StepResponse -> string) {
    forall s :: JsonLine(encode(s))
  }

  /** `JSON.parse` undoes `json.dumps`. */
  ghost predicate Inverse(encode: StepResponse -> string, parse: string -> Option<StepResponse>) {
    forall s :: parse(encode(s)) == Some(s)
  }

  /** The text of a backend frame before its closing blank line. */
  function EventBody(s: StepResponse, encode: StepResponse -> string): string {
    "event:" + TypeName(s.kind) + "\n" + "data:" + encode(s)
  }

  lemma {:induction false} ConcatOfClosedFrames(bodies: seq<string>, frames: seq<string>)
    requires |frames| == |bodies|
    requires forall i :: 0 <= i < |bodies| ==> frames[i] == bodies[i] + "\n\n"
    ensures Concat(frames) == JoinFrames(bodies)
  {
    if bodies != [] {
      ConcatOfClosedFrames(bodies[1..], frames[1..]);
    }
  }

  /** A string with at most one newline, not at its end, holds no blank line and does not end in a newline. */
  lemma OneNewlineWellFormed(a: string, b: string)
    requires NoNewline(a) && NoNewline(b) && b != []
    ensures WellFormedFrame(a + "\n" + b)
  {
    var s := a + "\n" + b;
    forall j | 0 <= j < |s| ensures !DelimAt(s, j) {
      if j < |a| {
        assert s[j] == a[j];
      } else if j > |a| {
        assert s[j] == b[j - |a| - 1];
      } else if j + 1 < |s| {
        assert s[j + 1] == b[0];
      }
    }
    assert s[|s| - 1] == b[|b| - 1];
  }

  lemma EventBodyWellFormed(s: StepResponse, encode: StepResponse -> string)
    requires SingleLineEncoder(encode)
    ensures WellFormedFrame(EventBody(s, encode))
    ensures EventFrame(s, encode) == EventBody(s, encode) + "\n\n"
  {
    var name, json := TypeName(s.kind), encode(s);
    TypeNameRoundTrip(s.kind);
    var a, b := "event:" + name, "data:" + json;
    assert NoNewline(a) by {
      forall i | 0 <= i < |a| ensures a[i] != '\n' {
        if i >= 6 { assert a[i] == name[i - 6]; }
      }
    }
    assert NoNewline(b) by {
      forall i | 0 <= i < |b| ensures b[i] != '\n' {
        if i >= 5 { assert b[i] == json[i - 5]; }
      }
    }
    assert EventBody(s, encode) == a + "\n" + b;
    OneNewlineWellFormed(a, b);
  }

  /** After `trim`, a backend frame still starts with `event:`, so the client never keeps it. */
  lemma EventBodyRejected(s: StepResponse, encode: StepResponse -> string, parse: string -> Option<StepResponse>)
    ensures ParseFrame(EventBody(s, encode), parse) == None
  {
    var body := EventBody(s, encode);
    TrimKeepsFirst(body);
    var t := Trim(body);
    assert t[0] == 'e';
    if |t| >= 5 {
      assert t[..5][0] == 'e';
    }
  }

  lemma {:induction false} NoneKept(frames: seq<string>, parse: string -> Option<StepResponse>)
    requires forall k :: 0 <= k < |frames| ==> ParseFrame(frames[k], parse) == None
    ensures StepsOf(frames, parse) == []
  {
    if frames != [] {
      NoneKept(frames[1..], parse);
    }
  }

  /**
   * As written: whatever the steps, the chunking of the response and the
   * parser, the client decodes the frames of `gen()` to no steps at all.
   */
  lemma EventFramesAllDropped(steps: seq<StepResponse>, frames: seq<string>, chunks: seq<string>,
                              encode: StepResponse -> string, parse: string -> Option<StepResponse>)
    requires SingleLineEncoder(encode)
    requires |frames| == |steps| && forall i :: 0 <= i < |steps| ==> frames[i] == EventFrame(steps[i], encode)
    requires Concat(chunks) == Concat(frames)
    ensures Emitted("", chunks) == seq(|steps|, i requires 0 <= i < |steps| => EventBody(steps[i], encode))
    ensures StepsOf(Emitted("", chunks), parse) == []
  {
    var bodies := seq(|steps|, i requires 0 <= i < |steps| => EventBody(steps[i], encode));
    forall i | 0 <= i < |steps| ensures WellFormedFrame(bodies[i]) && frames[i] == bodies[i] + "\n\n" {
      EventBodyWellFormed(steps[i], encode);
    }
    ConcatOfClosedFrames(bodies, frames);
    FramesOfJoin(bodies, "");
    assert JoinFrames(bodies) + "" == JoinFrames(bodies);
    EmittedIsFramesOfConcat("", chunks);
    assert "" + Concat(chunks) == JoinFrames(bodies);
    forall k | 0 <= k < |bodies| ensures ParseFrame(bodies[k], parse) == None {
      EventBodyRejected(steps[k], encode, parse);
    }
    NoneKept(bodies, parse);
  }

  /** Two steps, a response in one chunk: the page shows nothing, whatever the parser. */
  lemma OneChunkShowsNothing(a: StepResponse, b: StepResponse,
                             encode: StepResponse -> string, parse: string -> Option<StepResponse>)
    requires SingleLineEncoder(encode)
    ensures StepsOf(Emitted("", [EventFrame(a, encode) + EventFrame(b, encode)]), parse) == []
  {
    var fa, fb := EventFrame(a, encode), EventFrame(b, encode);
    var frames := [fa, fb];
    assert Concat([fb]) == fb + Concat([]);
    assert Concat(frames) == fa + Concat([fb]);
    assert Concat([fa + fb]) == fa + fb + Concat([]);
    EventFramesAllDropped([a, b], frames, [EventFrame(a, encode) + EventFrame(b, encode)], encode, parse);
  }

  // ---------------------------------------------------------------- corrected backend

  /** One step as a frame the client understands: a single `data:` line. */
  function DataFrame(s: StepResponse, encode: StepResponse -> string): string {
    "data:" + encode(s) + "\n\n"
  }

  /** `gen()` with the `event:` line left out: one `data:` frame per step, in order. */
  method GenData(steps: seq<StepResponse>, encode: StepResponse -> string) returns (frames: seq<string>)
    ensures |frames| == |steps|
    ensures forall i :: 0 <= i < |steps| ==> frames[i] == DataFrame(steps[i], encode)
  {
    frames := [];
    for i := 0 to |steps|
      invariant |frames| == i
      invariant forall j :: 0 <= j < i ==> frames[j] == DataFrame(steps[j], encode)
    {
      frames := frames + [DataFrame(steps[i], encode)];
    }
  }

  /** A `data:` line whose payload is a JSON line is a well-formed frame, and the client parses exactly the payload. */
  lemma DataBodyKept<V>(json: string, parse: string -> Option<V>)
    requires JsonLine(json)
    ensures WellFormedFrame("data:" + json)
    ensures ParseFrame("data:" + json, parse) == parse(json)
  {
    var body := "data:" + json;
    assert NoNewline(body) by {
      forall i | 0 <= i < |body| ensures body[i] != '\n' {
        if i >= 5 { assert body[i] == json[i - 5]; }
      }
    }
    assert body[|body| - 1] == json[|json| - 1];
    TrimOfTrimmed(body);
    assert body[..5] == "data:" && body[5..] == json;
  }

  /**
   * Corrected: whatever the chunking, the client decodes the corrected
   * backend's frames back to exactly the steps that were sent, in order.
   */
  lemma DataFramesRoundTrip(steps: seq<StepResponse>, frames: seq<string>, chunks: seq<string>,
                            encode: StepResponse -> string, parse: string -> Option<StepResponse>)
    requires SingleLineEncoder(encode) && Inverse(encode, parse)
    requires |frames| == |steps| && forall i :: 0 <= i < |steps| ==> frames[i] == DataFrame(steps[i], encode)
    requires Concat(chunks) == Concat(frames)
    ensures StepsOf(Emitted("", chunks), parse) == steps
  {
    var bodies := seq(|steps|, i requires 0 <= i < |steps| => "data:" + encode(steps[i]));
    forall i | 0 <= i < |steps|
      ensures WellFormedFrame(bodies[i]) && frames[i] == bodies[i] + "\n\n"
      ensures ParseFrame(bodies[i], parse) == Some(steps[i])
    {
      assert JsonLine(encode(steps[i]));
      DataBodyKept(encode(steps[i]), parse);
    }
    ConcatOfClosedFrames(bodies, frames);
    FramesOfJoin(bodies, "");
    assert JoinFrames(bodies) + "" == JoinFrames(bodies);
    EmittedIsFramesOfConcat("", chunks);
    assert "" + Concat(chunks) == JoinFrames(bodies);
    StepsOfKept(bodies, parse);
  }

  // ---------------------------------------------------------------- worked examples

  lemma JoinTwo(x: string, y: string)
    ensures JoinFrames([x, y]) == x + "\n\n" + y + "\n\n"
  {
    assert JoinFrames([y]) == y + "\n\n" + JoinFrames([]);
    assert JoinFrames([x, y]) == x + "\n\n" + JoinFrames([y]);
  }

  lemma ConcatTwo(c1: string, c2: string)
    ensures Concat([c1, c2]) == c1 + c2
  {
    assert Concat([c2]) == c2 + Concat([]);
  }

  /** Two frames whose text, decoded from scratch, is exactly those frames: the client keeps what each parses to. */
  lemma TwoDataFrames<V>(text: string, ja: string, jb: string, parse: string -> Option<V>)
    requires JsonLine(ja) && JsonLine(jb)
    requires text == "data:" + ja + "\n\n" + "data:" + jb + "\n\n"
    ensures Frames(text) == ["data:" + ja, "data:" + jb]
    ensures StepsOf(Frames(text), parse) == Kept(parse(ja)) + Kept(parse(jb))
  {
    var fa, fb := "data:" + ja, "data:" + jb;
    DataBodyKept(ja, parse);
    DataBodyKept(jb, parse);
    JoinTwo(fa, fb);
    assert text == JoinFrames([fa, fb]) + "";
    FramesOfJoin([fa, fb], "");
    assert StepsOf([fb], parse) == Kept(ParseFrame(fb, parse)) + StepsOf([], parse);
    StepsOfCons(fa, [fb], parse);
  }

  lemma PrefixGlue(ja: string, jb: string)
    ensures ("data:" + ja + "\n\nda") + ("ta:" + jb + "\n\n") == "data:" + ja + "\n\n" + "data:" + jb + "\n\n"
  {
  }

  /**
   * Two frames delivered in two chunks, the second chunk boundary falling
   * inside the `data:` prefix of the second frame: both steps are shown, in order.
   */
  lemma PrefixSplitAcrossChunks<V>(ja: string, jb: string, a: V, b: V, parse: string -> Option<V>)
    requires JsonLine(ja) && JsonLine(jb)
    requires parse(ja) == Some(a) && parse(jb) == Some(b)
    ensures StepsOf(Emitted("", ["data:" + ja + "\n\nda", "ta:" + jb + "\n\n"]), parse) == [a, b]
  {
    var c1, c2 := "data:" + ja + "\n\nda", "ta:" + jb + "\n\n";
    ConcatTwo(c1, c2);
    PrefixGlue(ja, jb);
    EmittedIsFramesOfConcat("", [c1, c2]);
    assert "" + (c1 + c2) == c1 + c2;
    TwoDataFrames(c1 + c2, ja, jb, parse);
  }

  /**
   * One chunk holding a frame whose payload `JSON.parse` rejects, then a good
   * frame: the bad frame is skipped and the good one is still shown.
   */
  lemma BadPayloadSkipped<V>(bad: string, jc: string, c: V, parse: string -> Option<V>)
    requires JsonLine(bad) && JsonLine(jc)
    requires parse(bad) == None && parse(jc) == Some(c)
    ensures StepsOf(Emitted("", ["data:" + bad + "\n\ndata:" + jc + "\n\n"]), parse) == [c]
  {
    var chunk := "data:" + bad + "\n\ndata:" + jc + "\n\n";
    assert chunk == "data:" + bad + "\n\n" + "data:" + jc + "\n\n";
    EmittedOne(chunk);
    TwoDataFrames(chunk, bad, jc, parse);
  }
}
