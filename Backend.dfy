/**
 * The backend pieces the client depends on (backend/app.py): the request and
 * response validation rules, the OCR upload's content-type check, the event
 * stream serialiser of /task/solve/stream, and the star progress aggregation.
 * Databases, Redis, object storage and the OCR/LLM services are not modelled;
 * what they return is passed in.
 */
module Backend {
  import opened Wrappers
  import opened Strings

  // ---------------------------------------------------------------- step responses

  /** The four values `StepResponse.type` admits. */
  datatype StepType = Step | Clarify | Motivate | ErrorStep

  function TypeName(t: StepType): string {
    match t
    case Step => "step"
    case Clarify => "clarify"
    case Motivate => "motivate"
    case ErrorStep => "error"
  }

  /** The `Literal["step","clarify","motivate","error"]` check. */
  function ParseType(s: string): (r: Option<StepType>)
    ensures r.Some? ==> TypeName(r.value) == s
    ensures r.None? <==> s !in {"step", "clarify", "motivate", "error"}
  {
    if s == "step" then Some(Step)
    else if s == "clarify" then Some(Clarify)
    else if s == "motivate" then Some(Motivate)
    else if s == "error" then Some(ErrorStep)
    else None
  }

  lemma TypeNameRoundTrip(t: StepType)
    ensures ParseType(TypeName(t)) == Some(t)
    ensures TypeName(t) != [] && forall i :: 0 <= i < |TypeName(t)| ==> TypeName(t)[i] != '\n'
  {
  }

  datatype StepResponse = StepResponse(kind: StepType, content: string)

  /** One object of the LLM service's answer; a field may be missing. */
  datatype RawStep = RawStep(typeName: Option<string>, content: Option<string>)

  /** `StepResponse(**o)`: both fields present and the type one of the four. */
  function ValidateStep(o: RawStep): (r: Option<StepResponse>)
    ensures r.Some? <==> o.typeName.Some? && o.content.Some? && ParseType(o.typeName.value).Some?
    ensures r.Some? ==> TypeName(r.value.kind) == o.typeName.value && r.value.content == o.content.value
  {
    if o.typeName.None? || o.content.None? then None
    else match ParseType(o.typeName.value)
      case Some(t) => Some(StepResponse(t, o.content.value))
      case None => None
  }

  /**
   * `[StepResponse(**o) for o in r.json()]`: the first invalid object raises,
   * so the whole answer is rejected; otherwise every object becomes a step, in order.
   */
  function ValidateSteps(os: seq<RawStep>): (r: Option<seq<StepResponse>>)
    ensures r.Some? <==> forall i :: 0 <= i < |os| ==> ValidateStep(os[i]).Some?
    ensures r.Some? ==> |r.value| == |os|
                        && forall i :: 0 <= i < |os| ==> ValidateStep(os[i]) == Some(r.value[i])
  {
    if os == [] then Some([])
    else match (ValidateStep(os[0]), ValidateSteps(os[1..]))
      case (Some(s), Some(more)) => Some([s] + more)
      case _ => None
  }

  // ---------------------------------------------------------------- registration

  /** `\d`, restricted to ASCII digits. */
  predicate IsDigit(c: char) {
    '0' <= c <= '9'
  }

  /** A regular-expression atom of the fixed-length patterns used here. */
  datatype Atom = AnyDigit | Char(c: char)

  predicate AtomMatches(a: Atom, c: char) {
    match a
    case AnyDigit => IsDigit(c)
    case Char(d) => c == d
  }

  /** `\d{4}-\d{2}-\d{2}` */
  const DatePattern: seq<Atom> :=
    [AnyDigit, AnyDigit, AnyDigit, AnyDigit, Char('-'), AnyDigit, AnyDigit, Char('-'), AnyDigit, AnyDigit]

  /** `s` begins with a match of the fixed-length pattern `p`. */
  predicate PrefixMatches(p: seq<Atom>, s: string) {
    |p| <= |s| && forall i :: 0 <= i < |p| ==> AtomMatches(p[i], s[i])
  }

  /**
   * Python's `re.match("^" + p + "$", s)`: `$` matches at the very end and
   * also just before a newline that ends the string.
   */
  predicate AnchoredMatch(p: seq<Atom>, s: string) {
    PrefixMatches(p, s) && (|s| == |p| || (|s| == |p| + 1 && s[|p|] == '\n'))
  }

  /** The dates `birth_date` admits: ten characters, or eleven with a final newline. */
  lemma DateShape(s: string)
    ensures AnchoredMatch(DatePattern, s) <==>
      && (|s| == 10 || (|s| == 11 && s[10] == '\n'))
      && IsDigit(s[0]) && IsDigit(s[1]) && IsDigit(s[2]) && IsDigit(s[3]) && s[4] == '-'
      && IsDigit(s[5]) && IsDigit(s[6]) && s[7] == '-' && IsDigit(s[8]) && IsDigit(s[9])
  {
    if |s| >= 10 && IsDigit(s[0]) && IsDigit(s[1]) && IsDigit(s[2]) && IsDigit(s[3]) && s[4] == '-'
      && IsDigit(s[5]) && IsDigit(s[6]) && s[7] == '-' && IsDigit(s[8]) && IsDigit(s[9]) {
      forall i | 0 <= i < |DatePattern| ensures AtomMatches(DatePattern[i], s[i]) {
        assert i in {0, 1, 2, 3, 4, 5, 6, 7, 8, 9};
      }
    }
    if PrefixMatches(DatePattern, s) {
      assert AtomMatches(DatePattern[4], s[4]) && AtomMatches(DatePattern[7], s[7]);
      assert AtomMatches(DatePattern[0], s[0]) && AtomMatches(DatePattern[1], s[1]);
      assert AtomMatches(DatePattern[2], s[2]) && AtomMatches(DatePattern[3], s[3]);
      assert AtomMatches(DatePattern[5], s[5]) && AtomMatches(DatePattern[6], s[6]);
      assert AtomMatches(DatePattern[8], s[8]) && AtomMatches(DatePattern[9], s[9]);
    }
  }

  /** The body of POST /register; `native_language` may be left out. */
  datatype Registration = Registration(fullName: string, birthDate: string, grade: int,
                                       nativeLanguage: Option<string>)

  datatype Field = FullName | BirthDate | Grade | NativeLanguage

  /** `native_language` after its default "ru" is applied. */
  function Language(r: Registration): string {
    if r.nativeLanguage.Some? then r.nativeLanguage.value else "ru"
  }

  /** The fields the `Registration` model rejects; the request is accepted iff there are none. */
  function RegistrationErrors(r: Registration): (errs: set<Field>)
    ensures FullName in errs <==> |r.fullName| < 2
    ensures BirthDate in errs <==> !AnchoredMatch(DatePattern, r.birthDate)
    ensures Grade in errs <==> !(1 <= r.grade <= 11)
    ensures NativeLanguage in errs <==> Language(r) !in {"ru", "en", "sah"}
  {
    (if |r.fullName| < 2 then {FullName} else {})
    + (if AnchoredMatch(DatePattern, r.birthDate) then {} else {BirthDate})
    + (if 1 <= r.grade <= 11 then {} else {Grade})
    + (if Language(r) in {"ru", "en", "sah"} then {} else {NativeLanguage})
  }

  /** A registration passes validation exactly when all four rules hold. */
  lemma RegistrationValidIff(r: Registration)
    ensures RegistrationErrors(r) == {} <==>
      && |r.fullName| >= 2
      && AnchoredMatch(DatePattern, r.birthDate)
      && 1 <= r.grade <= 11
      && Language(r) in {"ru", "en", "sah"}
  {
  }

  lemma DateExamples()
    ensures AnchoredMatch(DatePattern, "2012-09-01")
    ensures AnchoredMatch(DatePattern, "2012-09-01\n")
    ensures !AnchoredMatch(DatePattern, "2012-9-01")
    ensures !AnchoredMatch(DatePattern, "2012-09-01 ")
  {
    DateShape("2012-09-01");
    DateShape("2012-09-01\n");
    DateShape("2012-9-01");
    DateShape("2012-09-01 ");
  }

  // ---------------------------------------------------------------- OCR upload

  datatype OcrReply = UnsupportedMediaType | Recognised(text: string)

  /**
   * POST /media/ocr: an upload whose content type is not PNG, JPEG or WebP
   * (or has none) is refused with 415 before the OCR service is called.
   */
  function MediaOcr(contentType: Option<string>, ocrText: string): (r: OcrReply)
    ensures r == UnsupportedMediaType <==>
              contentType.None? || contentType.value !in {"image/png", "image/jpeg", "image/webp"}
    ensures r.Recognised? ==> r.text == ocrText
  {
    if contentType.Some? && contentType.value in {"image/png", "image/jpeg", "image/webp"}
    then Recognised(ocrText)
    else UnsupportedMediaType
  }

  // ---------------------------------------------------------------- the event stream

  /** The text `gen()` yields for one step; `encode` stands for `json.dumps(s.dict())`. */
  function EventFrame(s: StepResponse, encode: StepResponse -> string): string {
    "event:" + TypeName(s.kind) + "\n" + "data:" + encode(s) + "\n\n"
  }

  /** `gen()`: one frame per step, in the order of `steps`. */
  method Gen(steps: seq<StepResponse>, encode: StepResponse -> string) returns (frames: seq<string>)
    ensures |frames| == |steps|
    ensures forall i :: 0 <= i < |steps| ==> frames[i] == EventFrame(steps[i], encode)
  {
    frames := [];
    for i := 0 to |steps|
      invariant |frames| == i
      invariant forall j :: 0 <= j < i ==> frames[j] == EventFrame(steps[j], encode)
    {
      frames := frames + [EventFrame(steps[i], encode)];
    }
  }

  /** Every frame starts with `event:` and ends with the blank-line delimiter. */
  lemma EventFrameShape(s: StepResponse, encode: StepResponse -> string)
    ensures var f := EventFrame(s, encode);
            StartsWith(f, "event:") && |f| >= 2 && f[|f| - 2..] == "\n\n"
  {
  }

  // ---------------------------------------------------------------- progress

  /** The Redis key of one user's stars for one month (`YYYYMM`). */
  function StarKey(uid: string, month: string): string {
    "stars:" + uid + ":" + month
  }

  /**
   * The stored keys the pattern `stars:{uid}:*` matches, for a `uid` free of
   * glob metacharacters: every key with that prefix. What one run of
   * `scan_iter` returns is a separate sequence, which may repeat a key.
   */
  function UserKeys(store: map<string, Option<int>>, uid: string): (keys: set<string>)
    ensures keys <= store.Keys
    ensures forall k :: k in keys <==> k in store && StartsWith(k, "stars:" + uid + ":")
  {
    set k | k in store.Keys && StartsWith(k, "stars:" + uid + ":")
  }

  /** `await redis.zscore(k, "star") or 0`: a missing key or member counts 0. */
  function Score(store: map<string, Option<int>>, k: string): int {
    if k in store && store[k].Some? then store[k].value else 0
  }

  /** The sum of the scores of `keys`, in no particular order. */
  ghost function SumScores(store: map<string, Option<int>>, keys: set<string>): int
    decreases keys
  {
    if keys == {} then 0
    else
      var k :| k in keys;
      Score(store, k) + SumScores(store, keys - {k})
  }

  /** The sum does not depend on which key is taken first. */
  lemma {:induction false} SumScoresRemove(store: map<string, Option<int>>, keys: set<string>, k: string)
    requires k in keys
    ensures SumScores(store, keys) == Score(store, k) + SumScores(store, keys - {k})
    decreases keys
  {
    var k' :| k' in keys && SumScores(store, keys) == Score(store, k') + SumScores(store, keys - {k'});
    if k' != k {
      SumScoresRemove(store, keys - {k'}, k);
      SumScoresRemove(store, keys - {k}, k');
      assert keys - {k'} - {k} == keys - {k} - {k'};
    }
  }

  /** With non-negative scores, the sum over a set is at least the score of any member. */
  lemma {:induction false} SumScoresAtLeastOne(store: map<string, Option<int>>, keys: set<string>, k: string)
    requires forall key :: key in keys ==> Score(store, key) >= 0
    requires k in keys
    ensures SumScores(store, keys) >= Score(store, k)
  {
    SumScoresRemove(store, keys, k);
    SumScoresNonNegative(store, keys - {k});
  }

  lemma {:induction false} SumScoresNonNegative(store: map<string, Option<int>>, keys: set<string>)
    requires forall key :: key in keys ==> Score(store, key) >= 0
    ensures SumScores(store, keys) >= 0
    decreases keys
  {
    if keys != {} {
      var k :| k in keys && SumScores(store, keys) == Score(store, k) + SumScores(store, keys - {k});
      SumScoresNonNegative(store, keys - {k});
    }
  }

  /** No key occurs twice in `keys`. */
  predicate Distinct(keys: seq<string>) {
    forall i, j :: 0 <= i < j < |keys| ==> keys[i] != keys[j]
  }

  /** The keys occurring in `keys`. */
  function KeySet(keys: seq<string>): set<string> {
    set k | k in keys
  }

  /** What `scan_iter` returned is every key of the user, each exactly once. */
  predicate ScansEachOnce(store: map<string, Option<int>>, uid: string, scanned: seq<string>) {
    Distinct(scanned) && KeySet(scanned) == UserKeys(store, uid)
  }

  /** The running total of the `async for` loop: the scores of the scanned keys, added in order. */
  function ScanTotal(store: map<string, Option<int>>, scanned: seq<string>): int {
    if scanned == [] then 0
    else ScanTotal(store, scanned[..|scanned| - 1]) + Score(store, scanned[|scanned| - 1])
  }

  /** Over keys that occur once each, the running total is the sum over their set. */
  lemma {:induction false} ScanTotalOfDistinct(store: map<string, Option<int>>, scanned: seq<string>)
    requires Distinct(scanned)
    ensures ScanTotal(store, scanned) == SumScores(store, KeySet(scanned))
  {
    if scanned != [] {
      var n := |scanned| - 1;
      var init := scanned[..n];
      var last := scanned[n];
      assert KeySet(scanned) - {last} == KeySet(init) by {
        forall k ensures k in init <==> k in scanned && k != last {
          if k in init {
            var i :| 0 <= i < n && init[i] == k;
            assert scanned[i] == k;
          }
          if k in scanned && k != last {
            var i :| 0 <= i < |scanned| && scanned[i] == k;
            assert init[i] == k;
          }
        }
      }
      ScanTotalOfDistinct(store, init);
      SumScoresRemove(store, KeySet(scanned), last);
    }
  }

  /** A scan that returns each of the user's keys once gives the sum over the user's keys. */
  lemma ScanTotalIsSum(store: map<string, Option<int>>, uid: string, scanned: seq<string>)
    requires ScansEachOnce(store, uid, scanned)
    ensures ScanTotal(store, scanned) == SumScores(store, UserKeys(store, uid))
  {
    ScanTotalOfDistinct(store, scanned);
  }

  /**
   * SCAN may return a key more than once; the loop then adds that key's score
   * again, so the total exceeds the sum over the user's keys by that score.
   */
  lemma DuplicateCountedTwice(store: map<string, Option<int>>, uid: string, scanned: seq<string>, k: string)
    requires ScansEachOnce(store, uid, scanned)
    requires k in scanned
    ensures ScanTotal(store, scanned + [k]) == SumScores(store, UserKeys(store, uid)) + Score(store, k)
  {
    assert (scanned + [k])[..|scanned|] == scanned;
    ScanTotalIsSum(store, uid, scanned);
  }

  datatype Progress = Progress(total: int, monthly: int)

  /**
   * GET /user/progress/{uid}: `total` adds up the star score of every key
   * the scan returned, in order, and `monthly` is the current month's score;
   * missing scores count 0. The keys `scan_iter` returned are passed in.
   */
  method GetProgress(store: map<string, Option<int>>, uid: string, month: string, scanned: seq<string>)
    returns (p: Progress)
    ensures p.total == ScanTotal(store, scanned)
    ensures ScansEachOnce(store, uid, scanned) ==> p.total == SumScores(store, UserKeys(store, uid))
    ensures p.monthly == Score(store, StarKey(uid, month))
  {
    var total := 0;
    for i := 0 to |scanned|
      invariant total == ScanTotal(store, scanned[..i])
    {
      assert scanned[..i + 1][..i] == scanned[..i];
      total := total + Score(store, scanned[i]);
    }
    assert scanned[..|scanned|] == scanned;
    if ScansEachOnce(store, uid, scanned) {
      ScanTotalIsSum(store, uid, scanned);
    }
    var monthly := Score(store, StarKey(uid, month));
    p := Progress(total, monthly);
  }

  /** With non-negative scores, the month's stars never exceed the total. */
  lemma MonthlyAtMostTotal(store: map<string, Option<int>>, uid: string, month: string)
    requires forall k :: k in store && store[k].Some? ==> store[k].value >= 0
    ensures 0 <= Score(store, StarKey(uid, month)) <= SumScores(store, UserKeys(store, uid))
  {
    var key := StarKey(uid, month);
    var keys := UserKeys(store, uid);
    assert forall k :: k in keys ==> Score(store, k) >= 0;
    if key in store {
      assert StartsWith(key, "stars:" + uid + ":") by {
        assert key == ("stars:" + uid + ":") + month;
      }
      SumScoresAtLeastOne(store, keys, key);
    } else {
      SumScoresNonNegative(store, keys);
    }
  }
}
