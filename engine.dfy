/**
  The boundary with the automation engine, and the decisions `SikuliXRegion`
  takes around an engine call: which arguments the call carries, and how its
  reply is reported and returned. The engine itself is an input: a function from
  the call it receives to the reply it gives.
 */
module Engine {
  import opened Wrappers
  import opened Geometry
  import opened TargetPattern

  /** The values an engine operation can hand back. */
  datatype EngineValue = NullValue | BoolValue(b: bool) | NumberValue(n: int) | TextValue(s: string) | MatchValue(m: Rect)

  /** What the engine is asked to act on. */
  datatype Argument =
    | NoArgument
    | PatternArgument(pattern: Pattern)
    | TextArgument(text: string)
    | MatchArgument(rect: Option<Rect>, offset: Option<Offset>)   // `None` rect: a null match

  /** One engine call: the active rectangle at the time, the operation's name, its argument and an optional timeout. */
  datatype EngineCall = EngineCall(region: Rect, op: string, arg: Argument, timeout: Option<real>)

  /** The engine either throws, or returns a value and leaves its last match as given. */
  datatype Reply = Threw | Gave(value: EngineValue, lastMatch: Option<Rect>)

  /** Errors raised before, or outside, a guarded engine call. */
  datatype Error = BadPattern(cause: PatternError) | NoLastMatch | EngineException | MissingKeyField | UnknownKey(name: string)

  /** The abstract outcome tag of a find (`_passed`, the vanish message, `_notfound`). */
  datatype Report = Passed | Vanished | NotFound

  /**
    The outcome of a find: aborted before the engine call, the engine's exception
    reported as failed and re-raised as a generic one, or the engine's value returned.
   */
  datatype FindOutcome = Aborted(error: Error) | RaisedFailure | Returned(value: EngineValue, report: Report)

  /** Python truthiness of an engine value. */
  predicate Truthy(v: EngineValue): (b: bool)
    ensures v.NullValue? ==> !b
    ensures v.MatchValue? ==> b
    ensures v.BoolValue? ==> b == v.b
    ensures v.TextValue? ==> (b <==> |v.s| > 0)
  {
    match v
    case NullValue => false
    case BoolValue(b) => b
    case NumberValue(n) => n != 0
    case TextValue(s) => s != ""
    case MatchValue(_) => true
  }

  /** A zero timeout calls the operation with its subject only; any other timeout is passed along. */
  function FindCall(region: Rect, op: string, arg: Argument, seconds: real): (c: EngineCall)
    ensures c.region == region && c.op == op && c.arg == arg
    ensures c.timeout.None? <==> seconds == 0.0
    ensures c.timeout.Some? ==> c.timeout.value == seconds
  {
    EngineCall(region, op, arg, if seconds == 0.0 then None else Some(seconds))
  }

  /**
    How a guarded find call is reported: an exception becomes a raised failure; any
    other reply is returned unchanged, reported as passed (or vanished, for the
    operation named `vanishOp`) when truthy and as not found, without raising, when falsy.
   */
  function Classify(vanishOp: string, op: string, reply: Reply): (r: FindOutcome)
    ensures !r.Aborted?
    ensures r.RaisedFailure? <==> reply.Threw?
    ensures reply.Gave? ==> r.Returned? && r.value == reply.value
    ensures r.Returned? ==> (r.report == NotFound <==> !Truthy(r.value))
    ensures r.Returned? ==> (r.report == Vanished <==> Truthy(r.value) && op == vanishOp)
  {
    match reply
    case Threw => RaisedFailure
    case Gave(v, _) =>
      if !Truthy(v) then Returned(v, NotFound)
      else if op == vanishOp then Returned(v, Vanished)
      else Returned(v, Passed)
  }

  /** The vanish operation `_region_findOperation` recognises. */
  const ImageVanishOp := "waitVanish"

  /** The vanish operation `region_wait_vanish_text` passes to `_region_findTextOperation`. */
  const TextVanishOp := "waitVanishText"

  /** Report of an image find. */
  function ClassifyImage(op: string, reply: Reply): (r: FindOutcome)
    ensures reply.Gave? && Truthy(reply.value) ==> r.Returned? && (r.report == Vanished <==> op == "waitVanish")
  {
    Classify(ImageVanishOp, op, reply)
  }

  /** Report of a text find as written: the comparison is with the image operation's name. */
  function ClassifyTextAsWritten(op: string, reply: Reply): (r: FindOutcome)
    ensures reply.Gave? && Truthy(reply.value) ==> r.Returned? && (r.report == Vanished <==> op == "waitVanish")
  {
    Classify(ImageVanishOp, op, reply)
  }

  /** A vanished text is reported as a text that is visible. */
  lemma TextVanishMisreported(m: Option<Rect>)
    ensures ClassifyTextAsWritten(TextVanishOp, Gave(BoolValue(true), m)) == Returned(BoolValue(true), Passed)
  {
  }

  /** Report of a text find, comparing with the text vanish operation it is actually called with. */
  function ClassifyText(op: string, reply: Reply): (r: FindOutcome)
    ensures reply.Gave? && Truthy(reply.value) ==> r.Returned? && (r.report == Vanished <==> op == "waitVanishText")
  {
    Classify(TextVanishOp, op, reply)
  }

  /** `region_exists` with a falsy reply: reported as not found, the value returned, nothing raised. */
  lemma ExampleExistsNotFound(m: Option<Rect>)
    ensures ClassifyImage("exists", Gave(NullValue, m)) == Returned(NullValue, NotFound)
  {
  }

  /** `region_wait` whose engine call throws: reported as failed and raised. */
  lemma ExampleWaitThrows()
    ensures ClassifyImage("wait", Threw) == RaisedFailure
  {
  }

  /** The three cases of `_region_mouseAction`. */
  datatype MouseCase = OnRegion | OnPattern | OnLastMatch

  /** No target acts on the active region, whatever `useLastMatch` says; a target with `useLastMatch` acts on the last match and ignores the target. */
  function MouseCaseOf(target: Option<string>, useLastMatch: bool): (c: MouseCase)
    ensures c == OnRegion <==> target.None?
    ensures c == OnPattern <==> target.Some? && !useLastMatch
    ensures c == OnLastMatch <==> target.Some? && useLastMatch
  {
    if target.None? then OnRegion
    else if !useLastMatch then OnPattern
    else OnLastMatch
  }

  /**
    The argument `_prepare_lastMatch` produces: the last match with the offset rule
    applied to its size. A missing match is passed as null when there is no offset
    and fails (attribute access on `None`) when there is one.
   */
  function LastMatchArgument(lastMatch: Option<Rect>, dx: int, dy: int, centerMode: bool): (r: Result<Argument, Error>)
    ensures r.Failure? <==> lastMatch.None? && !(dx == 0 && dy == 0)
    ensures r.Failure? ==> r.error == NoLastMatch
    ensures r.Success? ==> r.value.MatchArgument? && r.value.rect == lastMatch
    ensures r.Success? && lastMatch.Some? ==> r.value.offset == TargetOffset(dx, dy, centerMode, Size(lastMatch.value.w, lastMatch.value.h))
    ensures r.Success? && dx == 0 && dy == 0 ==> r.value.offset.None?
  {
    match lastMatch
    case None => if dx == 0 && dy == 0 then Success(MatchArgument(None, None)) else Failure(NoLastMatch)
    case Some(m) => Success(MatchArgument(Some(m), TargetOffset(dx, dy, centerMode, Size(m.w, m.h))))
  }

  /** The value a mouse action returns, or the engine exception that escapes it (mouse actions are not guarded). */
  function ActionResult(reply: Reply): (r: Result<EngineValue, Error>)
    ensures r.Failure? <==> reply.Threw?
    ensures r.Failure? ==> r.error == EngineException
    ensures r.Success? ==> r.value == reply.value
  {
    match reply
    case Threw => Failure(EngineException)
    case Gave(v, _) => Success(v)
  }
}
