/**
 * The karaoke practice loop (frontend/Karaoke.jsx): a text is cut into lines,
 * and the learner works through them one at a time. Pressing the button has
 * the current line spoken; when the utterance ends, speech recognition starts;
 * a recognised transcript that equals the line after trimming and lower-casing
 * advances to the next line, anything else is reported back. The browser's
 * speech synthesis and recognition are the events that drive the session.
 */
module Karaoke {
  import opened Wrappers
  import opened Strings
  import opened Sequences

  // ---------------------------------------------------------------- lines

  /** Length of the first line of `text`: the characters before the first newline. */
  function LineLength(text: string): (n: nat)
    ensures n <= |text|
    ensures NoNewline(text[..n])
    ensures n < |text| ==> text[n] == '\n'
  {
    if text == [] || text[0] == '\n' then 0 else 1 + LineLength(text[1..])
  }

  /**
   * `text.split(/\n+/).filter(Boolean)`: the maximal runs of non-newline
   * characters, in order. Splitting on runs of newlines and dropping empty
   * pieces is the same as splitting on every newline and dropping empty pieces.
   */
  function SplitLines(text: string): (lines: seq<string>)
    ensures lines == [] <==> forall i :: 0 <= i < |text| ==> text[i] == '\n'
    decreases |text|
  {
    if text == [] then
      []
    else if text[0] == '\n' then
      SplitLines(text[1..])
    else
      var n := LineLength(text);
      [text[..n]] + SplitLines(text[n..])
  }

  /** A practice line: non-empty and without a newline. */
  predicate IsLine(l: string) {
    l != [] && NoNewline(l)
  }

  /** The text with every newline removed. */
  function DropNewlines(text: string): (r: string)
    ensures NoNewline(r)
  {
    if text == [] then [] else (if text[0] == '\n' then [] else [text[0]]) + DropNewlines(text[1..])
  }

  /** The lines joined back with one newline between neighbours. */
  function JoinLines(lines: seq<string>): string {
    if lines == [] then []
    else if |lines| == 1 then lines[0]
    else lines[0] + "\n" + JoinLines(lines[1..])
  }

  /** Every line is non-empty and contains no newline. */
  lemma {:induction false} SplitLinesAreLines(text: string)
    ensures forall k :: 0 <= k < |SplitLines(text)| ==> IsLine(SplitLines(text)[k])
    decreases |text|
  {
    if text != [] {
      if text[0] == '\n' {
        SplitLinesAreLines(text[1..]);
      } else {
        var n := LineLength(text);
        SplitLinesAreLines(text[n..]);
      }
    }
  }

  lemma DropNewlinesAppend(a: string, b: string)
    ensures DropNewlines(a + b) == DropNewlines(a) + DropNewlines(b)
  {
    if a != [] {
      assert (a + b)[0] == a[0] && (a + b)[1..] == a[1..] + b;
      DropNewlinesAppend(a[1..], b);
    } else {
      assert a + b == b;
    }
  }

  lemma {:induction false} DropNewlinesOfLine(l: string)
    requires NoNewline(l)
    ensures DropNewlines(l) == l
  {
    if l != [] {
      DropNewlinesOfLine(l[1..]);
    }
  }

  /**
   * Nothing but newlines is lost and the order is kept: the lines glued
   * together are the text with its newlines removed.
   */
  lemma {:induction false} SplitLinesKeepsText(text: string)
    ensures Concat(SplitLines(text)) == DropNewlines(text)
    decreases |text|
  {
    if text != [] {
      if text[0] == '\n' {
        SplitLinesKeepsText(text[1..]);
      } else {
        var n := LineLength(text);
        var lines := SplitLines(text);
        SplitLinesKeepsText(text[n..]);
        assert lines[0] == text[..n] && lines[1..] == SplitLines(text[n..]);
        assert text == text[..n] + text[n..];
        DropNewlinesAppend(text[..n], text[n..]);
        DropNewlinesOfLine(text[..n]);
      }
    }
  }

  /** Joining proper lines with newlines and splitting again gives the same lines back. */
  lemma {:induction false} SplitJoinRoundTrip(lines: seq<string>)
    requires forall k :: 0 <= k < |lines| ==> IsLine(lines[k])
    ensures SplitLines(JoinLines(lines)) == lines
  {
    if |lines| == 1 {
      var l := lines[0];
      assert LineLength(l) == |l| by { LineLengthOfLine(l, []); }
      assert l[..|l|] == l && l[|l|..] == [];
    } else if |lines| > 1 {
      var l, rest := lines[0], lines[1..];
      var more := JoinLines(rest);
      var t := l + "\n" + more;
      assert JoinLines(lines) == t;
      SeqAssoc(l, "\n", more);
      LineLengthOfLine(l, "\n" + more);
      assert t[..|l|] == l && t[|l|..] == "\n" + more;
      assert SplitLines("\n" + more) == SplitLines(more) by {
        TailOfAppend("\n", more);
      }
      assert forall k :: 0 <= k < |rest| ==> IsLine(rest[k]) by {
        forall k | 0 <= k < |rest| ensures IsLine(rest[k]) {
          assert rest[k] == lines[k + 1];
        }
      }
      SplitJoinRoundTrip(rest);
      HeadTail(lines);
    }
  }

  /** The first line of `l + rest` is `l` when `l` has no newline and `rest` is empty or starts with one. */
  lemma {:induction false} LineLengthOfLine(l: string, rest: string)
    requires NoNewline(l)
    requires rest == [] || rest[0] == '\n'
    ensures LineLength(l + rest) == |l|
  {
    if l != [] {
      assert (l + rest)[1..] == l[1..] + rest;
      LineLengthOfLine(l[1..], rest);
    } else {
      assert l + rest == rest;
    }
  }

  /** A newline, or the end of the text, after `a` leaves the first line of `a` where it was. */
  lemma {:induction false} LineLengthBeforeNewline(a: string, rest: string)
    requires rest == [] || rest[0] == '\n'
    ensures LineLength(a + rest) == LineLength(a)
  {
    if a == [] {
      assert a + rest == rest;
    } else if a[0] != '\n' {
      TailOfAppend(a, rest);
      LineLengthBeforeNewline(a[1..], rest);
    }
  }

  /**
   * Every newline is a line break: the lines of `a`, a newline and `b` are the
   * lines of `a` followed by those of `b`. With `a` or `b` empty or ending or
   * starting in newlines, this covers runs of newlines (blank lines between
   * stanzas) and newlines at either end of the text, which yield no line.
   */
  lemma {:induction false} SplitLinesNewline(a: string, b: string)
    ensures SplitLines(a + "\n" + b) == SplitLines(a) + SplitLines(b)
    decreases |a|
  {
    var s := a + "\n" + b;
    if a == [] {
      assert s[0] == '\n' && s[1..] == b;
    } else if a[0] == '\n' {
      assert s[0] == '\n' && s[1..] == a[1..] + "\n" + b;
      SplitLinesNewline(a[1..], b);
    } else {
      var n := LineLength(a);
      assert s == a + ("\n" + b);
      LineLengthBeforeNewline(a, "\n" + b);
      assert s[..n] == a[..n];
      if n == |a| {
        assert s[n..] == "\n" + b && s[n..][1..] == b;
        assert SplitLines(s[n..]) == SplitLines(b);
      } else {
        assert s[n..] == a[n..] + "\n" + b;
        SplitLinesNewline(a[n..], b);
      }
      SeqAssoc([a[..n]], SplitLines(a[n..]), SplitLines(b));
    }
  }

  /** A proper line splits into itself. */
  lemma SplitOneLine(l: string)
    requires IsLine(l)
    ensures SplitLines(l) == [l]
  {
    SplitJoinRoundTrip([l]);
  }

  /** Two lines, each preceded by a newline and the second also by a blank line, then a final newline. */
  lemma {:induction false} SplitStanzas(first: string, second: string)
    requires IsLine(first) && IsLine(second)
    ensures SplitLines([] + "\n" + (first + "\n" + ([] + "\n" + (second + "\n" + [])))) == [first, second]
  {
    var tail := second + "\n" + [];
    var mid := [] + "\n" + tail;
    var body := first + "\n" + mid;
    SplitOneLine(first);
    SplitOneLine(second);
    SplitLinesNewline(second, []);
    SplitLinesNewline([], tail);
    SplitLinesNewline(first, mid);
    SplitLinesNewline([], body);
    assert [first] + [second] == [first, second];
  }

  /** A blank line between two stanzas, and newlines around the poem, give no empty line. */
  lemma BlankLinesSkipped(first: string, second: string)
    requires IsLine(first) && IsLine(second)
    ensures SplitLines("\n" + first + "\n\n" + second + "\n") == [first, second]
  {
    SplitStanzas(first, second);
    assert [] + "\n" + (first + "\n" + ([] + "\n" + (second + "\n" + [])))
        == "\n" + first + "\n\n" + second + "\n";
  }

  // ---------------------------------------------------------------- judging

  /** `s.trim().toLowerCase()`: no longer than `s`, and neither beginning nor ending with whitespace. */
  function Normalize(s: string): (r: string)
    ensures |r| <= |s|
    ensures r == [] || (!IsSpace(r[0]) && !IsSpace(r[|r| - 1]))
  {
    ToLowerKeepsSpace(Trim(s));
    ToLower(Trim(s))
  }

  /** What the recognition handler reports for one transcript. */
  datatype Verdict = Correct | TryAgain(heard: string)

  /**
   * The comparison in `onresult`: both sides trimmed and lower-cased; on a
   * mismatch the normalised transcript is what the learner is shown.
   */
  function Judge(target: string, transcript: string): (v: Verdict)
    ensures v == Correct <==> Normalize(transcript) == Normalize(target)
    ensures v.TryAgain? ==> v.heard == Normalize(transcript)
  {
    var spoken := Normalize(transcript);
    if spoken == Normalize(target) then Correct else TryAgain(spoken)
  }

  /** Normalising twice is normalising once. */
  lemma NormalizeIdempotent(s: string)
    ensures Normalize(Normalize(s)) == Normalize(s)
  {
    var t := Trim(s);
    TrimIdempotent(s);
    TrimStartToLower(t);
    TrimEndToLower(TrimStart(t));
    ToLowerIdempotent(t);
  }

  /** A normalised line judges its own normalisation correct, and the heard text of a miss is already normal. */
  lemma JudgeFacts(target: string, transcript: string)
    ensures Judge(target, Normalize(target)) == Correct
    ensures Judge(target, transcript).TryAgain? ==>
              Normalize(Judge(target, transcript).heard) == Judge(target, transcript).heard
  {
    NormalizeIdempotent(target);
    NormalizeIdempotent(transcript);
  }

  /** Whitespace around the transcript never changes the verdict. */
  lemma PaddingIgnored(target: string, transcript: string, pre: string, post: string)
    requires AllSpace(pre) && AllSpace(post)
    ensures Judge(target, pre + transcript + post) == Judge(target, transcript)
  {
    TrimIgnoresPadding(pre, transcript, post);
  }

  /** Upper case in the transcript never changes the verdict. */
  lemma CaseIgnored(target: string, transcript: string)
    ensures Judge(target, ToLower(transcript)) == Judge(target, transcript)
  {
    TrimStartToLower(transcript);
    TrimEndToLower(TrimStart(transcript));
    ToLowerIdempotent(Trim(transcript));
  }

  /** A trimmed line, lower-cased and padded with whitespace, is judged correct. */
  lemma PaddingAndCaseIgnored(line: string, pre: string, post: string)
    requires line != [] && !IsSpace(line[0]) && !IsSpace(line[|line| - 1])
    requires AllSpace(pre) && AllSpace(post)
    ensures Judge(line, pre + ToLower(line) + post) == Correct
  {
    var low := ToLower(line);
    TrimStartSkipsSpace(pre, low + post);
    SeqAssoc(pre, low, post);
    LowerCharFacts(line[0]);
    LowerCharFacts(line[|line| - 1]);
    assert (low + post)[0] == low[0];
    assert TrimStart(low + post) == low + post;
    TrimEndSkipsSpace(low, post);
    TrimOfTrimmed(low);
    TrimOfTrimmed(line);
    ToLowerIdempotent(line);
  }

  /** A Russian line, read back in lower case with a space before it and a newline after it, counts. */
  lemma RussianLineJudgedCorrect()
    ensures Judge("Мир", " мир\n") == Correct
  {
    var line := "Мир";
    var low := ToLower(line);
    assert low[0] == 'м' && low[1] == 'и' && low[2] == 'р';
    assert low == "мир";
    assert " мир\n" == " " + low + "\n";
    PaddingAndCaseIgnored(line, " ", "\n");
  }


  // ---------------------------------------------------------------- the session

  /** How many of the verdicts were successes. */
  function Successes(vs: seq<Verdict>): (n: nat)
    ensures n <= |vs|
  {
    if vs == [] then 0 else Successes(vs[..|vs| - 1]) + (if vs[|vs| - 1] == Correct then 1 else 0)
  }

  /**
   * One mounted Karaoke component: its lines, the `current` and `listening`
   * state, and the utterance in flight (the text passed to `speak`, if any).
   * `recognitionAvailable` is whether the mount effect found a recogniser.
   */
  class Session {
    const lines: seq<string>
    const language: string
    const recognitionAvailable: bool
    var current: nat
    var listening: bool
    var utterance: Option<string>
    /** Every verdict delivered so far, in order. */
    ghost var verdicts: seq<Verdict>

    ghost predicate Valid()
      reads this
    {
      && current <= |lines|
      && current == Successes(verdicts)
      && (listening ==> current < |lines| && utterance.None? && recognitionAvailable)
      && (utterance.Some? ==> current < |lines| && utterance.value == lines[current] && !listening)
    }

    /** The practice is over: the finished card replaces the lines and the button. */
    predicate Done()
      reads this
    {
      current >= |lines|
    }

    /** The button is on screen and not disabled. */
    predicate ButtonEnabled()
      reads this
    {
      !Done() && !listening
    }

    constructor (text: string, language: string, recognitionAvailable: bool)
      ensures Valid()
      ensures lines == SplitLines(text) && this.language == language
      ensures this.recognitionAvailable == recognitionAvailable
      ensures current == 0 && !listening && utterance == None && verdicts == []
    {
      lines := SplitLines(text);
      this.language := language;
      this.recognitionAvailable := recognitionAvailable;
      current := 0;
      listening := false;
      utterance := None;
      verdicts := [];
    }

    /** `speak`: cancel whatever is being spoken and start speaking the current line. */
    method Speak()
      requires Valid() && ButtonEnabled()
      modifies this`utterance
      ensures Valid()
      ensures utterance == Some(lines[current])
    {
      utterance := Some(lines[current]);
    }

    /** A press of the button, which is disabled while listening and absent once done. */
    method Click()
      requires Valid()
      modifies this`utterance
      ensures Valid()
      ensures old(ButtonEnabled()) ==> utterance == Some(lines[current])
      ensures !old(ButtonEnabled()) ==> utterance == old(utterance)
    {
      if ButtonEnabled() {
        Speak();
      }
    }

    /**
     * The utterance's `onend`: recognition starts and `listening` is set.
     * Without a recogniser `recRef.current` is null, `start()` throws, and
     * `listening` stays false.
     */
    method OnEnd()
      requires Valid() && utterance.Some?
      modifies this`utterance, this`listening
      ensures Valid()
      ensures utterance == None && listening == recognitionAvailable
    {
      utterance := None;
      if recognitionAvailable {
        listening := true;
      }
    }

    /**
     * `onresult`: compare the transcript with the current line; a match
     * advances by one line, a mismatch reports what was heard. Either way
     * listening ends; nothing is spoken automatically.
     */
    method OnResult(transcript: string) returns (v: Verdict)
      requires Valid() && listening
      modifies this`current, this`listening, this`verdicts
      ensures Valid()
      ensures v == Judge(lines[old(current)], transcript)
      ensures current == old(current) + (if v == Correct then 1 else 0)
      ensures !listening && verdicts == old(verdicts) + [v]
    {
      v := Judge(lines[current], transcript);
      if v == Correct {
        current := current + 1;
      }
      listening := false;
      verdicts := verdicts + [v];
      assert verdicts[..|verdicts| - 1] == old(verdicts);
    }

    /** `onerror`: listening ends, the line stays the same. */
    method OnError()
      requires Valid() && listening
      modifies this`listening
      ensures Valid() && !listening
    {
      listening := false;
    }
  }

  /**
   * The session is finished exactly when there were as many correct answers
   * as lines; before that, a line is still waiting to be matched.
   */
  lemma DoneIffAllMatched(session: Session)
    requires session.Valid()
    ensures session.Done() <==> Successes(session.verdicts) == |session.lines|
    ensures !session.Done() ==> session.current < |session.lines|
  {
  }

  // ---------------------------------------------------------------- the view

  datatype Style = Highlighted | Struck | Plain

  datatype Row = Row(text: string, style: Style)

  /** What the component shows: the finished card, or the rows above the button. */
  datatype View = Finished | Practice(rows: seq<Row>)

  function Render(lines: seq<string>, current: nat): (v: View)
    ensures v == Finished <==> current >= |lines|
    ensures v.Practice? ==> |v.rows| == |lines|
  {
    if current >= |lines| then Finished
    else Practice(seq(|lines|, i requires 0 <= i < |lines| =>
      Row(if i <= current then lines[i] else "",
          if i == current then Highlighted else if i < current then Struck else Plain)))
  }

  /**
   * While practising, line i is visible exactly when i <= current (lines are
   * never empty), exactly one row is highlighted and the rows before it are
   * struck through.
   */
  lemma RenderShowsPrefix(text: string, current: nat)
    requires current < |SplitLines(text)|
    ensures var lines := SplitLines(text);
            var v := Render(lines, current);
            v.Practice? &&
            (forall i :: 0 <= i < |lines| ==> (v.rows[i].text != "" <==> i <= current)) &&
            (forall i :: 0 <= i < |lines| ==> (v.rows[i].style == Highlighted <==> i == current)) &&
            (forall i :: 0 <= i < |lines| ==> (v.rows[i].style == Struck <==> i < current))
  {
    SplitLinesAreLines(text);
  }
}
