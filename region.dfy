/**
  The session state of `SikuliXRegion` and the operations that overwrite it:
  the engine region's rectangle, the user-defined rectangle, the offset mode,
  the default selection mode and the engine's last match, with the find,
  text-find and mouse dispatchers that resolve the active rectangle first.
 */
module Region {
  import opened Wrappers
  import opened Geometry
  import opened TargetPattern
  import opened Engine

  /** What `_set_active_region` does to the rectangle. */
  datatype Selection = Keep | SetTo(rect: Rect) | MissingLastMatch

  /** An explicit per-call mode overrides the default one. */
  function ResolveSelectMode(regionSelect: Option<string>, defaultMode: Option<string>): (m: Option<string>)
    ensures regionSelect.Some? ==> m == regionSelect
    ensures regionSelect.None? ==> m == defaultMode
  {
    if regionSelect.None? then defaultMode else regionSelect
  }

  predicate NamedSelectMode(mode: Option<string>)
  {
    mode == Some("UserDefined") || mode == Some("LastMatch") || mode == Some("FullScreen")
  }

  /**
    The three named modes restore the user-defined rectangle, the last match or the
    screen; any other mode falls back to the legacy flag: the screen when `onScreen`
    holds, otherwise the rectangle is kept.
   */
  function SelectionOf(mode: Option<string>, onScreen: bool, userDefined: Rect, lastMatch: Option<Rect>, screen: Rect): (s: Selection)
    ensures mode == Some("UserDefined") ==> s == SetTo(userDefined)
    ensures mode == Some("LastMatch") ==> s == (if lastMatch.Some? then SetTo(lastMatch.value) else MissingLastMatch)
    ensures mode == Some("FullScreen") ==> s == SetTo(screen)
    ensures !NamedSelectMode(mode) ==> s == (if onScreen then SetTo(screen) else Keep)
  {
    if mode == Some("UserDefined") then SetTo(userDefined)
    else if mode == Some("LastMatch") then
      (if lastMatch.Some? then SetTo(lastMatch.value) else MissingLastMatch)
    else if mode == Some("FullScreen") then SetTo(screen)
    else if onScreen then SetTo(screen)
    else Keep
  }

  /**
    The legacy flag matters only when the resolved mode (the call's, or the default when
    the call passes none) is not one of the three names; an unknown per-call mode still
    overrides a named default.
   */
  lemma LegacyFlagLast(regionSelect: Option<string>, defaultMode: Option<string>, userDefined: Rect, lastMatch: Option<Rect>, screen: Rect)
    requires NamedSelectMode(ResolveSelectMode(regionSelect, defaultMode))
    ensures SelectionOf(ResolveSelectMode(regionSelect, defaultMode), true, userDefined, lastMatch, screen)
         == SelectionOf(ResolveSelectMode(regionSelect, defaultMode), false, userDefined, lastMatch, screen)
  {
  }

  /** The rectangle after a selection that did not fail. */
  function Selected(s: Selection, current: Rect): Rect
  {
    if s.SetTo? then s.rect else current
  }

  /** The engine's last match after a reply: a throw leaves it as it was. */
  function MatchAfter(reply: Reply, before: Option<Rect>): Option<Rect>
  {
    if reply.Gave? then reply.lastMatch else before
  }

  class SikuliXRegion {
    const screenW: int
    const screenH: int
    /** The engine region's rectangle (`appRegion`). */
    var region: Rect
    /** The rectangle of the last `region_set_rect` (`userDefined`). */
    var userDefined: Rect
    var offsetCenterMode: bool
    var defaultRegionSelectMode: Option<string>
    /** The engine region's last match (`appRegion.getLastMatch()`, which `appMatch` is always re-read from). */
    var lastMatch: Option<Rect>

    function Screen(): Rect
    {
      Rect(0, 0, screenW, screenH)
    }

    /** The engine reports the screen's bottom-right corner, which becomes the initial size of the region. */
    constructor (screenW: int, screenH: int, bottomRight: (int, int), centerMode: bool)
      ensures this.screenW == screenW && this.screenH == screenH
      ensures region == userDefined == Rect(0, 0, bottomRight.0, bottomRight.1)
      ensures offsetCenterMode == centerMode
      ensures defaultRegionSelectMode.None? && lastMatch.None?
    {
      this.screenW, this.screenH := screenW, screenH;
      region := Rect(0, 0, bottomRight.0, bottomRight.1);
      userDefined := Rect(0, 0, bottomRight.0, bottomRight.1);
      offsetCenterMode := centerMode;
      defaultRegionSelectMode := None;
      lastMatch := None;
    }

    method SetOffsetCenterMode(mode: bool)
      modifies this`offsetCenterMode
      ensures offsetCenterMode == mode
    {
      offsetCenterMode := mode;
    }

    method SetDefaultSelectMode(mode: Option<string>)
      modifies this`defaultRegionSelectMode
      ensures defaultRegionSelectMode == mode
    {
      defaultRegionSelectMode := mode;
    }

    /**
      `region_set_rect`: the rectangle is placed by the alignment mode and becomes both
      the active and the user-defined rectangle; an unknown mode is only reported.
     */
    method SetRect(x: int, y: int, w: int, h: int, dx: int, dy: int, mode: Option<string>) returns (unsupported: bool)
      modifies this`region, this`userDefined
      ensures region == userDefined == AlignedRect(mode, x, y, w, h, dx, dy, screenW, screenH)
      ensures unsupported <==> mode.Some? && !KnownMode(mode.value)
    {
      var cx, cy := x, y;
      unsupported := false;
      if mode == Some("left-upper") {
        cx, cy := dx, dy;
      } else if mode == Some("right-upper") {
        cx, cy := screenW - w + dx, dy;
      } else if mode == Some("left-lower") {
        cx, cy := dx, screenH - h + dy;
      } else if mode == Some("right-lower") {
        cx, cy := screenW - w + dx, screenH - h + dy;
      } else if mode == Some("center") {
        cx, cy := (screenW - w) / 2 + dx, (screenH - h) / 2 + dy;
      } else if mode.Some? {
        unsupported := true;
      }
      region := Rect(cx, cy, w, h);
      userDefined := Rect(cx, cy, w, h);
    }

    /**
      `_set_active_region`: the rectangle chosen by the resolved mode becomes active.
      With mode `LastMatch` and no last match the engine is handed null and throws;
      the rectangle is then left as it was.
     */
    method SetActiveRegion(onScreen: bool, regionSelect: Option<string>) returns (ok: bool)
      modifies this`region
      ensures var s := SelectionOf(ResolveSelectMode(regionSelect, defaultRegionSelectMode), onScreen, userDefined, lastMatch, Screen());
        && (ok <==> !s.MissingLastMatch?)
        && region == Selected(s, old(region))
    {
      var mode := regionSelect;
      if mode.None? {
        mode := defaultRegionSelectMode;
      }
      ok := true;
      if mode == Some("UserDefined") {
        region := userDefined;
      } else if mode == Some("LastMatch") {
        if lastMatch.Some? {
          region := lastMatch.value;
        } else {
          ok := false;
        }
      } else if mode == Some("FullScreen") {
        region := Screen();
      } else if onScreen {
        region := Screen();
      }
    }

    /** Hands `call` to the engine; the engine's last match follows its reply. */
    method Invoke(call: EngineCall, engine: EngineCall -> Reply) returns (reply: Reply)
      modifies this`lastMatch
      ensures reply == engine(call)
      ensures lastMatch == MatchAfter(reply, old(lastMatch))
    {
      reply := engine(call);
      if reply.Gave? {
        lastMatch := reply.lastMatch;
      }
    }

    /**
      `_region_findOperation`: resolve the active rectangle, build the pattern (no
      offset), call the operation on that rectangle with or without the timeout, and
      classify the reply. Only the engine call itself is guarded.
     */
    method FindOperation(op: string, target: string, seconds: real, onScreen: bool, regionSelect: Option<string>,
                         simKind: string -> SimKind, engine: EngineCall -> Reply) returns (out: FindOutcome)
      modifies this`region, this`lastMatch
      ensures var s := SelectionOf(ResolveSelectMode(regionSelect, defaultRegionSelectMode), onScreen, userDefined, old(lastMatch), Screen());
        var p := PreparePattern(target, 0, 0, offsetCenterMode, simKind, Size(0, 0));
        && (s.MissingLastMatch? ==> out == Aborted(NoLastMatch) && region == old(region) && lastMatch == old(lastMatch))
        && (!s.MissingLastMatch? ==> region == Selected(s, old(region)))
        && (!s.MissingLastMatch? && p.Failure? ==> out == Aborted(BadPattern(p.error)) && lastMatch == old(lastMatch))
        && (!s.MissingLastMatch? && p.Success? ==>
              var reply := engine(FindCall(region, op, PatternArgument(p.value), seconds));
              out == ClassifyImage(op, reply) && lastMatch == MatchAfter(reply, old(lastMatch)))
    {
      var ok := SetActiveRegion(onScreen, regionSelect);
      if !ok {
        return Aborted(NoLastMatch);
      }
      // with no offset the image size is never read
      var pattern := PreparePattern(target, 0, 0, offsetCenterMode, simKind, Size(0, 0));
      if pattern.Failure? {
        return Aborted(BadPattern(pattern.error));
      }
      var reply := Invoke(FindCall(region, op, PatternArgument(pattern.value), seconds), engine);
      out := ClassifyImage(op, reply);
    }

    /**
      `_region_findTextOperation`: the same dispatch over a plain text. As written it
      recognises the image vanish operation's name, so a vanished text is reported as
      visible; `ClassifyText` is the report intended.
     */
    method FindTextOperation(op: string, text: string, seconds: real, onScreen: bool, regionSelect: Option<string>,
                             engine: EngineCall -> Reply) returns (out: FindOutcome)
      modifies this`region, this`lastMatch
      ensures var s := SelectionOf(ResolveSelectMode(regionSelect, defaultRegionSelectMode), onScreen, userDefined, old(lastMatch), Screen());
        && (s.MissingLastMatch? ==> out == Aborted(NoLastMatch) && region == old(region) && lastMatch == old(lastMatch))
        && (!s.MissingLastMatch? ==>
              var reply := engine(FindCall(Selected(s, old(region)), op, TextArgument(text), seconds));
              && region == Selected(s, old(region))
              && out == ClassifyTextAsWritten(op, reply) && lastMatch == MatchAfter(reply, old(lastMatch)))
    {
      var ok := SetActiveRegion(onScreen, regionSelect);
      if !ok {
        return Aborted(NoLastMatch);
      }
      var reply := Invoke(FindCall(region, op, TextArgument(text), seconds), engine);
      out := ClassifyTextAsWritten(op, reply);
    }

    /**
      `_region_mouseAction`: with no target the action applies to the active rectangle;
      with a target and no `useLastMatch` the default selection runs (legacy flag unset)
      and the action gets the pattern with its offset; otherwise it gets the last match
      with its offset. Engine exceptions are not caught.
     */
    method MouseAction(action: string, target: Option<string>, dx: int, dy: int, useLastMatch: bool,
                       simKind: string -> SimKind, size: Size, engine: EngineCall -> Reply) returns (out: Result<EngineValue, Error>)
      modifies this`region, this`lastMatch
      ensures MouseCaseOf(target, useLastMatch) == OnRegion ==>
        var reply := engine(EngineCall(old(region), action, NoArgument, None));
        region == old(region) && out == ActionResult(reply) && lastMatch == MatchAfter(reply, old(lastMatch))
      ensures MouseCaseOf(target, useLastMatch) == OnPattern ==>
        var s := SelectionOf(ResolveSelectMode(None, defaultRegionSelectMode), false, userDefined, old(lastMatch), Screen());
        var p := PreparePattern(target.value, dx, dy, offsetCenterMode, simKind, size);
        && (s.MissingLastMatch? ==> out == Failure(NoLastMatch) && region == old(region) && lastMatch == old(lastMatch))
        && (!s.MissingLastMatch? ==> region == Selected(s, old(region)))
        && (!s.MissingLastMatch? && p.Failure? ==> out == Failure(BadPattern(p.error)) && lastMatch == old(lastMatch))
        && (!s.MissingLastMatch? && p.Success? ==>
              var reply := engine(EngineCall(region, action, PatternArgument(p.value), None));
              out == ActionResult(reply) && lastMatch == MatchAfter(reply, old(lastMatch)))
      ensures MouseCaseOf(target, useLastMatch) == OnLastMatch ==>
        var a := LastMatchArgument(old(lastMatch), dx, dy, offsetCenterMode);
        && region == old(region)
        && (a.Failure? ==> out == Failure(a.error) && lastMatch == old(lastMatch))
        && (a.Success? ==>
              var reply := engine(EngineCall(old(region), action, a.value, None));
              out == ActionResult(reply) && lastMatch == MatchAfter(reply, old(lastMatch)))
    {
      if target.None? {
        var reply := Invoke(EngineCall(region, action, NoArgument, None), engine);
        return ActionResult(reply);
      }
      if !useLastMatch {
        var ok := SetActiveRegion(false, None);
        if !ok {
          return Failure(NoLastMatch);
        }
        var pattern := PreparePattern(target.value, dx, dy, offsetCenterMode, simKind, size);
        if pattern.Failure? {
          return Failure(BadPattern(pattern.error));
        }
        var reply := Invoke(EngineCall(region, action, PatternArgument(pattern.value), None), engine);
        return ActionResult(reply);
      }
      var arg := LastMatchArgument(lastMatch, dx, dy, offsetCenterMode);
      if arg.Failure? {
        return Failure(arg.error);
      }
      var reply := Invoke(EngineCall(region, action, arg.value, None), engine);
      out := ActionResult(reply);
    }
  }
}
