# SikuliXRegion, modelled in Dafny

A model of the self-contained logic of `SikuliXRegion`, the region class of a
Robot Framework keyword library over the SikuliX GUI-automation engine. The
class mostly forwards calls to the engine; what it decides on its own is
modelled here and proved:

- the target mini-syntax `img`, `img=sim`, `img:mask`, `img:0`, `img:mask=sim`,
  `img:0=sim` (`_prepare_pattern`), over a model of Python's `str.split`;
- the mask, similarity and click-offset rules that turn a parsed target into a
  pattern, and the same offset rule for the last match (`_prepare_lastMatch`);
- the alignment formulas of `region_set_rect`;
- the session state (`appRegion`'s rectangle, `userDefined`, `offsetCenterMode`,
  `defaultRegionSelectMode`, the engine's last match) and the precedence rules of
  `_set_active_region`, as a class whose methods overwrite those fields;
- the find and text-find dispatchers (call shape with or without timeout,
  exception / pass / not-found classification), the three cases of the mouse
  dispatcher, and the special-key token resolution of `region_type`.

The engine is an input: a function from the call it receives (active rectangle,
operation name, argument, optional timeout) to its reply (an exception, or a
value and its new last match). Python's `float()` on a similarity text is an
input too: a classifier into not-a-number, zero and non-zero. The engine's key
constants are a lookup that may fail.

Files: `wrappers.dfy` (Option, Result), `text.dfy` (`str.split`, `join`, first
separator), `target_pattern.dfy`, `geometry.dfy`, `engine.dfy`, `keyboard.dfy`,
`region.dfy` (the class).

The model follows the code, also where the code departs from what the
keywords' docstrings or names would suggest:
- extra ':' or '=' fields are silently dropped, not rejected;
- an unknown `region_set_rect` mode is only logged; the rectangle is still set
  from the caller's x, y, and recorded as user-defined;
- a mouse action with no target acts on the active region even when
  `useLastMatch` is true;
- an unknown special key falls back to typing the extracted key name (the
  third '.'-field), not the whole token; an unknown modifier raises;
- of the engine's replies to a find, only an exception raises; a falsy reply
  is returned as not found (a rejected similarity and a missing last match under
  `LastMatch` raise before the engine is called);
- an unknown per-call mode overrides a named default and falls back to the
  legacy flag;
- a mouse action on a target runs the default selection with the legacy flag
  unset (sikulixregion.py:371), so with no default mode it keeps the current
  rectangle, although the docstring at sikulixregion.py:405 says the implicit
  find assumes the whole screen;
- the text-find dispatcher recognises a vanish by the image operation's name,
  so a vanished text is reported as visible text; the class does this too, and
  the intended report is proved beside it (see "## Findings").

## Model

| member | source | states |
|---|---|---|
| Text.Split | SikuliXLibrary/sikulixregion.py:159-167 | Python's `split` on one character: at least one field, and no field holds the separator |
| Text.SplitFields | SikuliXLibrary/sikulixregion.py:158-169 | field 0 of `split` is the text before the first separator; field 1 exists exactly when the separator occurs and is the text between the first and second separator |
| Text.JoinSplit | SikuliXLibrary/sikulixregion.py:159 | joining the fields of `split` with the separator gives back the string |
| Text.SplitJoin | SikuliXLibrary/sikulixregion.py:159 | splitting a join of separator-free fields gives back the fields |
| Text.SplitCount | SikuliXLibrary/sikulixregion.py:545 | `split` yields one more field than there are separators |
| TargetPattern.ParseTarget | SikuliXLibrary/sikulixregion.py:155-171 | a mask is present exactly when the target holds ':'; a similarity only when it holds '='; with ':' the image holds no ':'; with neither mask nor similarity the image is the whole target |
| TargetPattern.ParseWithColon | SikuliXLibrary/sikulixregion.py:158-165 | with ':' the image is the text before the first ':'; the mask segment (up to the next ':') is the mask, or, if it holds '=', the mask before its first '=' and the similarity up to the next '=' |
| TargetPattern.ParseWithoutColon | SikuliXLibrary/sikulixregion.py:166-171 | without ':' there is no mask; with '=' the image is the text before the first '=' and the similarity the second '='-field; with neither the whole target is the image |
| TargetPattern.ParseFormat | SikuliXLibrary/sikulixregion.py:154-171 | every target of the six documented shapes whose parts hold no separator parses back to its image, mask and similarity |
| TargetPattern.ExtraColonFieldDropped | SikuliXLibrary/sikulixregion.py:158-161 | text after a second ':' does not change the parse |
| TargetPattern.ExtraEqualsFieldDropped | SikuliXLibrary/sikulixregion.py:162-165 | text after a second '=' in the mask segment does not change the parse |
| TargetPattern.ExampleSimilarity | SikuliXLibrary/sikulixregion.py:166-169 | `icon.png=0.85` gives image `icon.png`, no mask, similarity `0.85` |
| TargetPattern.ExampleMaskAndSimilarity | SikuliXLibrary/sikulixregion.py:158-165 | `icon.png:mask.png=0.9` gives image `icon.png`, mask `mask.png`, similarity `0.9` |
| TargetPattern.MaskOf | SikuliXLibrary/sikulixregion.py:175-180 | mask `"0"` selects the default black mask, any other present mask (the empty one too) is a mask file, an absent mask applies none |
| TargetPattern.TargetOffset | SikuliXLibrary/sikulixregion.py:185-194 | no target offset exactly when dx and dy are both zero |
| TargetPattern.OffsetMeaning | SikuliXLibrary/sikulixregion.py:185-194 | the engine's click point is the centre for a zero offset, centre + (dx, dy) in centre mode, and upper-left + (dx, dy) otherwise |
| TargetPattern.OffsetHalved | SikuliXLibrary/sikulixregion.py:189-192 | out of centre mode the offset passed is dx − w/2, dy − h/2, i.e. 2·dx' = 2·dx − w |
| TargetPattern.PreparePattern | SikuliXLibrary/sikulixregion.py:153-194 | a similarity that `float()` rejects aborts; otherwise the pattern has the parsed image, the mask rule, the offset rule, and the similarity exactly when one is given and not zero |
| Geometry.AlignedOrigin | SikuliXLibrary/sikulixregion.py:127-145 | no mode or an unknown one keeps x, y; centre mode floors half the free space; right and lower modes put that edge at W + dx, H + dy |
| Geometry.AlignedRect | SikuliXLibrary/sikulixregion.py:127-148 | the rectangle has the given size and the corner of the alignment formulas |
| Geometry.HorizontalAlignment | SikuliXLibrary/sikulixregion.py:127-138 | left modes put x at dx; right modes put the right edge at W + dx |
| Geometry.VerticalAlignment | SikuliXLibrary/sikulixregion.py:127-138 | upper modes put y at dy; lower modes put the bottom edge at H + dy |
| Geometry.CenterAlignment | SikuliXLibrary/sikulixregion.py:139-141 | centre mode's left (top) margin is the floor of half the free space, for negative free space too |
| Geometry.UnalignedKeepsCorner | SikuliXLibrary/sikulixregion.py:142-145 | with no mode or an unknown one the caller's x, y are used |
| Geometry.ExampleCenter | SikuliXLibrary/sikulixregion.py:139-141 | an 800x600 rectangle centred on 1920x1080 has its corner at (560, 240) |
| Engine.FindCall | SikuliXLibrary/sikulixregion.py:238-255 | a zero timeout calls the operation with the pattern or text only, any other passes the timeout too |
| Engine.Classify | SikuliXLibrary/sikulixregion.py:257-269 | an engine exception becomes a raised failure; otherwise the value is returned unchanged, as not found exactly when falsy, as vanished exactly when truthy for the vanish operation |
| Engine.ClassifyImage | SikuliXLibrary/sikulixregion.py:261-268 | a truthy image find is reported as vanished exactly for `waitVanish` |
| Engine.Truthy | SikuliXLibrary/sikulixregion.py:261 | Python truthiness of a reply: null is falsy, a match object truthy, a boolean itself, a string truthy exactly when non-empty |
| Engine.ClassifyTextAsWritten | SikuliXLibrary/sikulixregion.py:640-646 | as written, a truthy text find is reported as vanished exactly for `waitVanish`, a name no text keyword passes |
| Engine.TextVanishMisreported | SikuliXLibrary/sikulixregion.py:640-644 | as written, a truthy `waitVanishText` is reported as visible text |
| Engine.ClassifyText | SikuliXLibrary/sikulixregion.py:640-646 | a truthy text find is reported as vanished exactly for `waitVanishText` |
| Engine.ExampleExistsNotFound | SikuliXLibrary/sikulixregion.py:261-269 | `exists` with a falsy reply returns it as not found without raising |
| Engine.ExampleWaitThrows | SikuliXLibrary/sikulixregion.py:257-259 | `wait` whose engine call throws is a raised failure |
| Engine.MouseCaseOf | SikuliXLibrary/sikulixregion.py:360-386 | no target acts on the region; a target acts on the pattern, or on the last match when `useLastMatch` holds |
| Engine.LastMatchArgument | SikuliXLibrary/sikulixregion.py:216-228 | the last match gets the offset rule applied with its own size; a missing match fails exactly when there is an offset |
| Engine.ActionResult | SikuliXLibrary/sikulixregion.py:363-386 | a mouse action returns the engine's value, and its exception escapes |
| Keyboard.KeyName | SikuliXLibrary/sikulixregion.py:545 | the name exists exactly when `split(".")` has a third field, and holds no '.' |
| Keyboard.KeyNameFields | SikuliXLibrary/sikulixregion.py:545 | the key name exists exactly when the token has two '.', and is the text between the second and third '.' |
| Keyboard.KeyArgumentOf | SikuliXLibrary/sikulixregion.py:541-550 | a token without the key prefix is typed as is; with it, a missing third field raises and an unknown name falls back to typing that name |
| Keyboard.ModifierArgumentOf | SikuliXLibrary/sikulixregion.py:551-554 | no modifier passes none; a modifier without the prefix passes null; an unknown modifier name raises |
| Keyboard.TypeArgumentsOf | SikuliXLibrary/sikulixregion.py:541-561 | the key is resolved before the modifier and either error aborts |
| Region.ResolveSelectMode | SikuliXLibrary/sikulixregion.py:199-200 | an explicit `regionSelect` overrides the default mode |
| Region.SelectionOf | SikuliXLibrary/sikulixregion.py:202-211 | `UserDefined`, `LastMatch`, `FullScreen` restore their rectangle; any other mode uses the screen when `onScreen` holds and keeps the rectangle otherwise |
| Region.LegacyFlagLast | SikuliXLibrary/sikulixregion.py:199-211 | `onScreen` matters only when the resolved mode (the call's, or the default when the call passes none) is not one of the three names |
| Region.SikuliXRegion.constructor | SikuliXLibrary/sikulixregion.py:11-24 | the region and user-defined rectangle start at (0, 0) with the screen's bottom-right as size; no default mode, no last match |
| Region.SikuliXRegion.SetOffsetCenterMode | SikuliXLibrary/sikulixregion.py:30-39 | sets the offset mode and nothing else |
| Region.SikuliXRegion.SetDefaultSelectMode | SikuliXLibrary/sikulixregion.py:42-54 | sets the default selection mode and nothing else |
| Region.SikuliXRegion.SetRect | SikuliXLibrary/sikulixregion.py:103-149 | active and user-defined rectangle both become the aligned rectangle; an unknown mode is only reported |
| Region.SikuliXRegion.SetActiveRegion | SikuliXLibrary/sikulixregion.py:197-213 | the rectangle becomes the one the resolved mode selects; `LastMatch` without a match fails and keeps it |
| Region.SikuliXRegion.Invoke | SikuliXLibrary/sikulixregion.py:237-255 | the reply is the engine's reply to the call; the last match becomes the one the reply leaves, and an exception leaves it as it was |
| Region.SikuliXRegion.FindOperation | SikuliXLibrary/sikulixregion.py:231-269 | selection, then pattern, then one engine call on the selected rectangle with or without timeout, classified; earlier errors abort before any call |
| Region.SikuliXRegion.FindTextOperation | SikuliXLibrary/sikulixregion.py:616-648 | the same dispatch over a text, classified as written: a truthy `waitVanishText` is reported as visible text |
| Region.SikuliXRegion.MouseAction | SikuliXLibrary/sikulixregion.py:357-386 | the three cases: region with no argument; default selection then the pattern with its offset; the last match with its offset |

## Findings

| source | as written | input that shows it | evidently intended | confidence | as-written member | corrected member |
|---|---|---|---|---|---|---|
| SikuliXLibrary/sikulixregion.py:641 | the text dispatcher recognises a vanish by comparing with `'waitVanish'`, but `region_wait_vanish_text` calls it with `'waitVanishText'` (line 687) | `region_wait_vanish_text` with an engine reply of `True` is reported as "Text visible on screen" | compare with `'waitVanishText'` and report the text as vanished | high that the comparison never matches; not executed | Engine.TextVanishMisreported | Engine.ClassifyText |

## Left out

- The engine bindings (JPype and Py4J reflection, `getDeclaredMethod`, `get_method`, `getDeclaredField`, `JInt`, `JDouble`, `JObject`): foreign calls, replaced by the abstract engine call.
- The engine's own behaviour (image matching, OCR, clicks, typing, pasting, drag and drop, highlight, mouse move, auto-wait, find-failed response).
- The keywords outside the modelled core: `region_set_auto_wait`, `region_get_auto_wait`, `region_set_find_failed_response`, `region_get_find_failed_response`, `region_mouse_move`, `region_highlight`, `region_highlight_all_off`, `region_paste`, `region_drag_drop`, `region_get_text`, `region_text`, `region_screenshot`, and `region_type` apart from its key parsing. Several of them change session state or reuse the modelled logic, and the class does not capture that:
  - `region_paste`, `region_type` and `region_drag_drop` overwrite the active rectangle with the screen;
  - `region_get_text` and `region_screenshot` run the active-region selection;
  - `region_text` runs the find dispatcher and then reads the last match;
  - `region_highlight` returns 0 when there is no last match.
- The public find, text-find and click keywords (`region_find`, `region_wait`, `region_exists`, `region_click`, …): each only fixes the operation name and a default timeout for the dispatchers modelled here.
- Logging, screenshots and the reporting calls `_passed`, `_failed`, `_notfound`: I/O; only an outcome tag is kept.
- Timeouts and blocking waits: the engine polls; there is no time logic in the class.
- `float()` on the similarity: floating point; the similarity stays text and a classifier says whether it is not a number, zero or non-zero.
- The 32-bit range of `JInt` and how it truncates a fractional offset: offsets are kept as exact reals.
- The `appPattern` field: it is written by the find dispatcher and never read for a decision.
- The engine's match object is mutable: an offset set on the last match stays on it until the next search, so a later click on the last match with zero offset reuses it. The model recomputes the offset for each call.
- The engine's last match after an engine exception is taken as unchanged, and `setRect(null)` for a missing last match as an exception that leaves the rectangle unchanged.
- The screen is taken to have its corner at (0, 0); `onScreen` and `offsetCenterMode` are booleans, and the truthiness of engine values follows Python's rules for null, booleans, numbers, strings and objects.
