# SchoolAI solving stream and karaoke practice, in Dafny

This project models three parts of the SchoolAI learning app.

- **The client's solving stream** (`handleSolveStream` in `frontend/App.jsx`).
  - The client posts a task and reads the answer as a stream of text chunks.
  - It keeps a carry-over buffer and cuts it at every blank line (`"\n\n"`).
  - Each cut-off piece is trimmed. A piece that starts with `data:` has the rest handed to `JSON.parse`, and the result is appended to the steps shown on the page. A parse failure is swallowed.
  - It then requests a star for the user.
- **The karaoke practice loop** (`frontend/Karaoke.jsx`).
  - A poem is cut into lines.
  - A button has the current line spoken. When the utterance ends, speech recognition starts.
  - A transcript that equals the line after `trim().toLowerCase()` advances to the next line. Anything else reports what was heard.
  - The view shows the lines up to the current one, or a finished card.
- **The backend counterparts** (`backend/app.py`).
  - `gen()` serialises the solving steps of `/task/solve/stream`.
  - Validation rules: the `Registration` and `StepResponse` models, and the image types `/media/ocr` accepts.
  - The star progress aggregation of `/user/progress/{uid}`.

Modules:

- `Strings`: the JavaScript `trim`, `startsWith` and `toLowerCase` the client uses.
- `Sequences`: gluing a sequence of sequences together, and a few named sequence facts.
- `EventStream`:
  - the frame decoder as specification functions (`Frames`, `Rest`, `StepsOf`, `Emitted`) with their lemmas;
  - a `SolveStream` class whose methods are the decode loop and the handler.
- `Karaoke`:
  - line splitting and the judging rule as functions;
  - a `Session` class driven by the button, the synthesis `onend` and the recognition events;
  - the rendered view.
- `Backend`: the validation rules, the `gen()` serialiser and the progress aggregation.
- `StreamProtocol`: what the client decodes from what `gen()` writes.

`JSON.parse` is a parameter `parse: string -> Option<V>`; `None` means it throws. `json.dumps` is a parameter `encode`. All that is assumed of them is what JSON guarantees: a dumped step is one non-empty line ending in a non-blank character, and parsing it gives the step back.

## Model

| member | source | states |
|---|---|---|
| Strings.Trim | frontend/App.jsx:102 | the trimmed text is no longer than the input and neither begins nor ends with whitespace |
| Strings.StartsWith | frontend/App.jsx:104 | `s.startsWith(p)` holds exactly when `s` is `p` followed by some text |
| Strings.ToLower | frontend/Karaoke.jsx:25-26 | `toLowerCase` keeps the length and maps each character by the one-character case mapping |
| Strings.TrimIdempotent | frontend/Karaoke.jsx:25-26 | trimming a trimmed string changes nothing |
| Strings.TrimKeepsFirst | frontend/App.jsx:102 | `trim` keeps a first character that is not whitespace |
| Strings.TrimStartToLower | frontend/Karaoke.jsx:25-26 | removing leading whitespace commutes with lower-casing |
| Strings.TrimEndToLower | frontend/Karaoke.jsx:25-26 | removing trailing whitespace commutes with lower-casing |
| Strings.TrimStartSkipsSpace | frontend/Karaoke.jsx:25 | any leading whitespace is ignored by `trim` |
| Strings.TrimEndSkipsSpace | frontend/Karaoke.jsx:25 | any trailing whitespace is ignored by `trim` |
| Strings.TrimIgnoresPadding | frontend/Karaoke.jsx:25 | whitespace on either side of a string makes no difference to `trim` |
| EventStream.IndexOfDelim | frontend/App.jsx:101 | `indexOf("\n\n")` is -1 or a position where a blank line starts |
| EventStream.IndexOfDelimFirst | frontend/App.jsx:101 | `indexOf` is -1 exactly when the buffer holds no blank line; otherwise no blank line starts before it |
| EventStream.Frames | frontend/App.jsx:101-103 | the pieces the inner loop cuts off: at most one per two characters of the buffer, since each is closed by a blank line |
| EventStream.Rest | frontend/App.jsx:101-103 | what the inner loop leaves in the buffer is never longer than the buffer |
| EventStream.FramesRestBound | frontend/App.jsx:101-103 | the frames with their closing blank lines, plus the carry-over, take no more than the whole buffer |
| EventStream.RestHasNoDelim | frontend/App.jsx:101-103 | once the inner loop stops, the buffer holds no `"\n\n"` |
| EventStream.SplitReassembles | frontend/App.jsx:101-103 | each frame is the text before the first delimiter; frames, each followed by `"\n\n"`, then the carry-over, give back the buffer exactly |
| EventStream.FramesCut | frontend/App.jsx:101-103 | one turn of the inner loop cuts off the text before the first blank line and drops exactly it plus two characters |
| EventStream.IndexOfDelimAppend | frontend/App.jsx:99-101 | appending a chunk does not move a blank line already in the buffer |
| EventStream.FramesAppend | frontend/App.jsx:99-103 | decoding `a + b` gives the frames of `a`, then the frames of `a`'s carry-over followed by `b`; the carry-over agrees too |
| EventStream.Emitted | frontend/App.jsx:96-111 | the frames emitted chunk by chunk: each uses up a blank line of the input, so there are at most half as many as its characters |
| EventStream.EmittedIsFramesOfConcat | frontend/App.jsx:96-111 | decoding chunk by chunk emits exactly the frames of the concatenated text |
| EventStream.ChunkBoundaryIndependence | frontend/App.jsx:99-103 | two chunkings of the same text give the same frames and the same steps |
| EventStream.FramesOfJoin | frontend/App.jsx:101-103 | frames without a blank line or a final newline, each closed by `"\n\n"`, are decoded back exactly; the unclosed tail stays in the buffer |
| EventStream.TruncatedTailDropped | frontend/App.jsx:96-112 | however the response is chunked, a trailing fragment without a closing blank line is never emitted; exactly the closed frames are |
| EventStream.EmittedOne | frontend/App.jsx:99-103 | a response read as one chunk emits the frames of that chunk |
| EventStream.ParseFrame | frontend/App.jsx:102-109 | a frame that does not start with `data:` once trimmed yields no step |
| EventStream.StepsOf | frontend/App.jsx:104-109 | there are never more steps than frames |
| EventStream.StepsOfAppend | frontend/App.jsx:108 | the steps of consecutive frame runs are appended in frame order |
| EventStream.DrainAppend | frontend/App.jsx:96-111 | draining after each chunk shows the same steps, and leaves the same buffer, as draining once after both chunks |
| EventStream.DroppedFrameSkipped | frontend/App.jsx:106-109 | a frame that is not kept (wrong prefix or a rejected payload) adds nothing; the frames after it are still decoded |
| EventStream.StepsOfKept | frontend/App.jsx:104-108 | when every frame parses, step k is what frame k parses to |
| EventStream.SolveStream.constructor | frontend/App.jsx:28-32 | no steps, not streaming, empty buffer |
| EventStream.SolveStream.Ingest | frontend/App.jsx:99-111 | after one chunk: the buffer is the carry-over of old buffer + chunk and holds no blank line; the steps of the completed frames are appended to the old steps, which are left unchanged |
| EventStream.SolveStream.ReadAll | frontend/App.jsx:95-112 | after the read loop: the buffer is the carry-over of all chunks, and the steps of all frames are appended in order |
| EventStream.SolveStream.HandleSolveStream | frontend/App.jsx:81-121 | empty `text` changes nothing; otherwise `streaming` ends false on every path; a rejected fetch, a non-ok status or a missing body leaves no steps and fails; a readable body shows exactly the steps of its chunks, also when the read later rejects; the reward request is made only when a user is known |
| Karaoke.LineLength | frontend/Karaoke.jsx:10 | the first line runs up to, not including, the first newline |
| Karaoke.SplitLines | frontend/Karaoke.jsx:10 | there are no lines exactly when the text is nothing but newlines |
| Karaoke.SplitLinesAreLines | frontend/Karaoke.jsx:10 | every line is non-empty and holds no newline |
| Karaoke.SplitLinesKeepsText | frontend/Karaoke.jsx:10 | the lines glued together are the text without its newlines, so nothing else is lost and order is kept |
| Karaoke.SplitJoinRoundTrip | frontend/Karaoke.jsx:10 | lines joined with newlines split back into the same lines |
| Karaoke.SplitLinesNewline | frontend/Karaoke.jsx:10 | every newline is a line break: the lines of `a`, a newline, `b` are the lines of `a` followed by the lines of `b`, so runs of newlines and newlines at either end give no empty line |
| Karaoke.BlankLinesSkipped | frontend/Karaoke.jsx:10 | two lines with a blank line between them and newlines around them split into exactly those two lines |
| Karaoke.Judge | frontend/Karaoke.jsx:25-29 | correct exactly when the trimmed, lower-cased transcript equals the trimmed, lower-cased line; otherwise the normalised transcript is reported |
| Karaoke.Normalize | frontend/Karaoke.jsx:25-26 | the normal form is no longer than the text and neither begins nor ends with whitespace |
| Karaoke.NormalizeIdempotent | frontend/Karaoke.jsx:25-26 | normalising twice is normalising once |
| Karaoke.JudgeFacts | frontend/Karaoke.jsx:25-29 | a line's own normalisation is judged correct; the text reported on a miss is already normalised |
| Karaoke.PaddingIgnored | frontend/Karaoke.jsx:25-27 | whitespace around the transcript never changes the verdict |
| Karaoke.CaseIgnored | frontend/Karaoke.jsx:25-27 | lower-casing the transcript never changes the verdict |
| Karaoke.PaddingAndCaseIgnored | frontend/Karaoke.jsx:25-27 | a line that neither begins nor ends with whitespace, heard lower-cased and padded with whitespace, is judged correct |
| Karaoke.RussianLineJudgedCorrect | frontend/Karaoke.jsx:25-27 | " мир\n" heard for the line "Мир" is judged correct |
| Karaoke.Session.constructor | frontend/Karaoke.jsx:10-12 | the lines are the split text; the learner starts at line 0, not listening, nothing spoken |
| Karaoke.Session.Speak | frontend/Karaoke.jsx:36-38 | the current line becomes the utterance in flight, replacing any earlier one |
| Karaoke.Session.Click | frontend/Karaoke.jsx:48 | a press speaks the current line only when the button is shown and not disabled by `listening`; otherwise nothing changes |
| Karaoke.Session.OnEnd | frontend/Karaoke.jsx:39 | when synthesis ends, nothing is in flight any more, and `listening` becomes true exactly when a recogniser exists; no other event sets it |
| Karaoke.Session.OnResult | frontend/Karaoke.jsx:24-31 | the verdict is `Judge` of the current line; a match advances by exactly one line, a mismatch keeps the line; listening ends |
| Karaoke.Session.OnError | frontend/Karaoke.jsx:32 | listening ends and the line is unchanged |
| Karaoke.DoneIffAllMatched | frontend/Karaoke.jsx:42 | the practice is over exactly when there were as many correct answers as lines |
| Karaoke.Render | frontend/Karaoke.jsx:42-47 | the finished card shows exactly when `current >= lines.length`; otherwise one row per line |
| Karaoke.RenderShowsPrefix | frontend/Karaoke.jsx:47 | line i is visible exactly when i <= current; exactly the current row is highlighted, and the rows before it are struck |
| Backend.ParseType | backend/app.py:59 | a step type is accepted exactly when it is one of step, clarify, motivate, error |
| Backend.TypeNameRoundTrip | backend/app.py:58-60 | each type's name parses back to it and is a non-empty single line |
| Backend.ValidateStep | backend/app.py:58-60 | an object becomes a step exactly when both fields are present and the type is admitted; fields are kept |
| Backend.ValidateSteps | backend/app.py:72 | the answer is accepted exactly when every object is valid, and then it has one step per object, in order |
| Backend.DateShape | backend/app.py:47 | `birth_date` matches exactly when it is 4 digits, `-`, 2 digits, `-`, 2 digits, with an optional final newline that `$` admits |
| Backend.RegistrationErrors | backend/app.py:45-49 | each field is rejected exactly when its own rule fails |
| Backend.RegistrationValidIff | backend/app.py:45-49 | a registration is valid exactly when all four rules hold; `native_language` defaults to ru |
| Backend.DateExamples | backend/app.py:47 | 2012-09-01 (also with a final newline) is accepted; 2012-9-01 and a trailing space are rejected |
| Backend.MediaOcr | backend/app.py:83-85 | a missing content type or one outside png/jpeg/webp gets 415; otherwise the OCR text is returned |
| Backend.Gen | backend/app.py:94-97 | one frame per step, in order, each `event:` type, newline, `data:` JSON, blank line |
| Backend.EventFrameShape | backend/app.py:96 | every frame starts with `event:` and ends with `"\n\n"` |
| Backend.UserKeys | backend/app.py:111 | the stored keys the pattern `stars:{uid}:*` matches are exactly those with the prefix `stars:{uid}:` |
| Backend.SumScoresRemove | backend/app.py:111-112 | the total does not depend on the order the scan returns keys in |
| Backend.ScanTotalOfDistinct | backend/app.py:111-112 | over keys that occur once each, the running total is the sum over their set |
| Backend.ScanTotalIsSum | backend/app.py:111-112 | when the scan returns each of the user's keys once, the total is the sum of the user's scores |
| Backend.DuplicateCountedTwice | backend/app.py:111-112 | a key the scan returns a second time has its score added again |
| Backend.GetProgress | backend/app.py:107-114 | `total` adds up the scores of the keys the scan returned, in order, and is the sum over the user's keys when each is returned once; `monthly` is the current month's score; a missing score counts 0 |
| Backend.MonthlyAtMostTotal | backend/app.py:110-113 | with non-negative scores, the month's stars are between 0 and the total |
| StreamProtocol.EventBodyWellFormed | backend/app.py:96 | a backend frame holds no blank line before its closing one |
| StreamProtocol.EventBodyRejected | frontend/App.jsx:102-104 | after `trim` a backend frame starts with `event:`, so the client never keeps it |
| StreamProtocol.EventFramesAllDropped | backend/app.py:94-97 | however chunked, the client decodes the frames of `gen()` into no steps at all |
| StreamProtocol.OneChunkShowsNothing | backend/app.py:96 | two steps sent in one chunk show nothing on the page |
| StreamProtocol.GenData | backend/app.py:94-97 | corrected serialiser: one `data:` frame per step, in order |
| StreamProtocol.DataBodyKept | frontend/App.jsx:102-107 | a `data:` line with a JSON payload is a well-formed frame, and the client parses exactly the payload |
| StreamProtocol.DataFramesRoundTrip | frontend/App.jsx:96-111 | however chunked, the corrected frames are decoded back into exactly the steps sent, in order |
| StreamProtocol.TwoDataFrames | frontend/App.jsx:101-109 | two `data:` frames decode into the steps their payloads parse to, in order |
| StreamProtocol.PrefixSplitAcrossChunks | frontend/App.jsx:99-109 | a chunk boundary inside the second frame's `data:` prefix still yields both steps in order |
| StreamProtocol.BadPayloadSkipped | frontend/App.jsx:104-109 | a frame whose payload does not parse is skipped, and the next frame is still shown |

## Left out

- The `TextDecoder` UTF-8 decoding, `fetch`, `reader.read()` and the HTTP layer. Chunks are modelled as already-decoded strings. A response is a value: a rejected fetch, or a status with an optional body of chunks ending in end-of-stream or a read rejection.
- The JSON grammar. `JSON.parse` and `json.dumps` are parameters.
- The client keeps whatever `JSON.parse` returns. It does not check for `type` or `content` fields, so neither does the model.
- EventStream.SolveStream.HandleSolveStream: the reward request is a flag saying whether it is reachable. `fetchProgress`, the toasts and the other App.jsx handlers are UI glue and are not modelled.
- Overlapping calls of handleSolveStream are not modelled. The button that starts one is disabled while `streaming`.
- React's asynchronous state updates are modelled as immediate field updates.
- Karaoke: the browser speech APIs are modelled as the events that call the Session methods. A cancelled utterance is assumed never to deliver `onend`.
- Karaoke: when no recogniser exists, the mount effect only shows a toast, and `onend` calls `start()` on null, which throws. OnEnd models this as `listening` staying false. The session is not failed at start.
- Karaoke: after a match nothing is spoken automatically. The learner presses the button again.
- Karaoke: a change of the `text` property while the component is mounted is not modelled. `current` would be kept for the new lines, and the recognition handlers would still see the old ones.
- Strings.LowerChar: `toLowerCase` is modelled for ASCII, the Russian Cyrillic letters and the extra Yakut (Sakha) letters only, not full Unicode case mapping.
- Backend.IsDigit: `\d` is taken as the ASCII digits. Python's `str` patterns also accept other Unicode decimal digits.
- Backend.Registration: pydantic's coercion of input types (e.g. a numeric string for `grade`) is not modelled. Fields arrive with their declared types.
- Backend.ValidateStep: pydantic's coercion is not modelled either. A numeric `content` would be turned into a string and accepted; a `RawStep` field is a string or absent.
- Backend.UserKeys: a `uid` containing glob metacharacters (`*`, `?`, `[`, `\`) would make `scan_iter` match other users' keys. The model assumes a uid without them.
- Backend.GetProgress: scores are integers. Redis returns floats, which `int()` truncates.
- Backend.GetProgress: the current month is passed in rather than read from `datetime.utcnow`.
- Backend.Gen: the 0.05 s pause after each frame is not modelled.
- The Postgres, Redis, S3, OCR and LLM calls are not modelled. What they return is passed in.
- Backend.GetProgress: the keys `scan_iter` returns, in the order it returns them, are a parameter. Redis SCAN may return a key more than once, and the loop then counts it twice (`DuplicateCountedTwice`). The total equals the sum over the user's keys only when each key comes back once (`ScanTotalIsSum`).

## Findings

| source | as written | input that shows it | evidently intended | confidence | as-written member | corrected member |
|---|---|---|---|---|---|---|
| backend/app.py:96 | `gen()` writes `event:<type>\ndata:<json>\n\n`; the client (frontend/App.jsx:102-104) trims each frame and keeps it only if it starts with `data:` | one step `{"type":"step","content":"A"}` streamed in one chunk: the page shows no steps | every step sent appears on the page, in order | not executed | StreamProtocol.EventFramesAllDropped | StreamProtocol.DataFramesRoundTrip |

The correction is on the server side. `StreamProtocol.GenData` writes one `data:` line per step, and the client decoder is kept as written.
