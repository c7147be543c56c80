/**
  The target mini-syntax of `SikuliXRegion._prepare_pattern`:
  `img`, `img=sim`, `img:mask`, `img:0`, `img:mask=sim`, `img:0=sim`,
  and the rules that turn a parsed target and a click offset into the
  pattern handed to the engine.
 */
module TargetPattern {
  import opened Wrappers
  import opened Text

  /** What the splitting finds: the mask is absent (`-1` in the source) or a text; the similarity is absent or its raw text. */
  datatype Target = Target(image: string, mask: Option<string>, similarity: Option<string>)

  /** How Python's `float()` judges a similarity text. */
  datatype SimKind = NotANumber | Zero | NonZero

  datatype MaskChoice = NoMask | DefaultBlackMask | MaskFile(path: string)

  /** A click offset, relative to the centre of the image or match (the engine's convention). */
  datatype Offset = Offset(dx: real, dy: real)

  datatype Size = Size(w: int, h: int)

  /** The pattern built for one call. `similarity` is present only when it is applied. */
  datatype Pattern = Pattern(image: string, mask: MaskChoice, similarity: Option<string>, offset: Option<Offset>)

  datatype PatternError = InvalidSimilarity(text: string)

  /** The splitting done at the top of `_prepare_pattern`, with Python's `split` and its fields `[0]` and `[1]`. */
  function ParseTarget(target: string): (t: Target)
    ensures t.mask.Some? <==> ':' in target
    ensures t.similarity.Some? ==> '=' in target
    ensures ':' in target ==> ':' !in t.image
    ensures t.mask.None? && t.similarity.None? ==> t.image == target
  {
    if ':' in target then
      var text := Split(target, ':');
      assert |text| >= 2 by { SplitFields(target, ':'); }
      var mask := text[1];
      if '=' in mask then
        assert '=' in target by {
          SplitFields(target, ':');
          var k :| 0 <= k < |mask| && mask[k] == '=';
          assert Tail(target, ':')[k] == '=';
        }
        var parts := Split(mask, '=');
        assert |parts| >= 2 by { SplitFields(mask, '='); }
        Target(text[0], Some(parts[0]), Some(parts[1]))
      else
        Target(text[0], Some(mask), None)
    else if '=' in target then
      var text := Split(target, '=');
      assert |text| >= 2 by { SplitFields(target, '='); }
      Target(text[0], None, Some(text[1]))
    else
      Target(target, None, None)
  }

  /** The mask segment of a target that contains ':' (the text between its first and second ':'). */
  function MaskSegment(target: string): string
    requires ':' in target
  {
    Head(Tail(target, ':'), ':')
  }

  /**
    With a ':' the image is the text before the first ':' and the mask segment the
    text up to the next ':'; an '=' inside the mask segment separates mask and
    similarity, and anything after a second ':' or a second '=' is dropped.
   */
  lemma ParseWithColon(target: string)
    requires ':' in target
    ensures var t := ParseTarget(target); var seg := MaskSegment(target);
      && t.image == Head(target, ':')
      && ('=' in seg ==> t.mask == Some(Head(seg, '=')) && t.similarity == Some(Head(Tail(seg, '='), '=')))
      && ('=' !in seg ==> t.mask == Some(seg) && t.similarity.None?)
  {
    SplitFields(target, ':');
    var seg := MaskSegment(target);
    SplitFields(seg, '=');
  }

  /** Without ':' an '=' separates image and similarity, and there is no mask; with neither, the whole target is the image. */
  lemma ParseWithoutColon(target: string)
    requires ':' !in target
    ensures var t := ParseTarget(target);
      && t.mask.None?
      && ('=' in target ==> t.image == Head(target, '=') && t.similarity == Some(Head(Tail(target, '='), '=')))
      && ('=' !in target ==> t.image == target && t.similarity.None?)
  {
    SplitFields(target, '=');
  }

  /** The canonical text of a target: `image[:mask][=similarity]`. */
  function Format(t: Target): string
  {
    t.image
    + (if t.mask.Some? then ":" + t.mask.value else "")
    + (if t.similarity.Some? then "=" + t.similarity.value else "")
  }

  /** A target whose parts hold neither separator. */
  predicate WellFormed(t: Target)
  {
    && ':' !in t.image && '=' !in t.image
    && (t.mask.Some? ==> ':' !in t.mask.value && '=' !in t.mask.value)
    && (t.similarity.Some? ==> ':' !in t.similarity.value && '=' !in t.similarity.value)
  }

  /** Every well-formed target of the six documented shapes parses back to itself. */
  lemma ParseFormat(t: Target)
    requires WellFormed(t)
    ensures ParseTarget(Format(t)) == t
  {
    var s := Format(t);
    if t.mask.Some? {
      var tail := if t.similarity.Some? then t.mask.value + "=" + t.similarity.value else t.mask.value;
      assert s == t.image + [':'] + tail;
      SplitAt(t.image, tail, ':');
      SplitNoSeparator(tail, ':');
      if t.similarity.Some? {
        assert tail == t.mask.value + ['='] + t.similarity.value;
        SplitAt(t.mask.value, t.similarity.value, '=');
        SplitNoSeparator(t.similarity.value, '=');
      }
    } else if t.similarity.Some? {
      assert s == t.image + ['='] + t.similarity.value;
      SplitAt(t.image, t.similarity.value, '=');
      SplitNoSeparator(t.similarity.value, '=');
    } else {
      assert s == t.image;
    }
  }

  /** Mask `"0"` is the engine's default black mask, any other present mask a file, an absent one none. */
  function MaskOf(mask: Option<string>): (m: MaskChoice)
    ensures m.DefaultBlackMask? <==> mask == Some("0")
    ensures m.NoMask? <==> mask.None?
    ensures m.MaskFile? ==> mask == Some(m.path) && m.path != "0"
  {
    match mask
    case None => NoMask
    case Some(text) => if text == "0" then DefaultBlackMask else MaskFile(text)
  }

  /**
    The offset rule shared by patterns and the last match: no offset when both
    are zero; in centre mode the offset as given; otherwise half the width and
    height are taken off first.
   */
  function TargetOffset(dx: int, dy: int, centerMode: bool, size: Size): (r: Option<Offset>)
    ensures r.None? <==> dx == 0 && dy == 0
  {
    if dx == 0 && dy == 0 then None
    else if centerMode then Some(Offset(dx as real, dy as real))
    else Some(Offset(dx as real - size.w as real / 2.0, dy as real - size.h as real / 2.0))
  }

  /** The point the engine clicks for an image or match at `r` carrying offset `off`: its centre moved by the offset. */
  function ClickPoint(r: (int, int), size: Size, off: Option<Offset>): (real, real)
  {
    var cx := r.0 as real + size.w as real / 2.0;
    var cy := r.1 as real + size.h as real / 2.0;
    match off
    case None => (cx, cy)
    case Some(o) => (cx + o.dx, cy + o.dy)
  }

  /**
    What the offset means: out of centre mode a non-zero (dx, dy) clicks dx, dy from the
    upper-left corner; in centre mode dx, dy from the centre; a zero offset clicks the
    centre in both modes.
   */
  lemma OffsetMeaning(dx: int, dy: int, centerMode: bool, at: (int, int), size: Size)
    ensures var p := ClickPoint(at, size, TargetOffset(dx, dy, centerMode, size));
      && (dx == 0 && dy == 0 ==> p == ClickPoint(at, size, None))
      && (!(dx == 0 && dy == 0) && !centerMode ==> p == ((at.0 + dx) as real, (at.1 + dy) as real))
      && (!(dx == 0 && dy == 0) && centerMode ==> p == (ClickPoint(at, size, None).0 + dx as real, ClickPoint(at, size, None).1 + dy as real))
  {
  }

  /** The conversion out of centre mode, in integers: `2 * dx' == 2 * dx - w`. */
  lemma OffsetHalved(dx: int, dy: int, size: Size)
    requires !(dx == 0 && dy == 0)
    ensures var o := TargetOffset(dx, dy, false, size).value;
      2.0 * o.dx == (2 * dx - size.w) as real && 2.0 * o.dy == (2 * dy - size.h) as real
  {
  }

  /**
    The pattern of `_prepare_pattern`: a similarity text that `float()` rejects aborts;
    otherwise image, mask and offset follow the rules above and the similarity is
    applied only when it is not zero.
   */
  function PreparePattern(target: string, dx: int, dy: int, centerMode: bool, simKind: string -> SimKind, size: Size): (r: Result<Pattern, PatternError>)
    ensures var t := ParseTarget(target);
      && (r.Failure? <==> t.similarity.Some? && simKind(t.similarity.value) == NotANumber)
      && (r.Failure? ==> r.error == InvalidSimilarity(t.similarity.value))
      && (r.Success? ==> r.value.image == t.image && r.value.mask == MaskOf(t.mask) && r.value.offset == TargetOffset(dx, dy, centerMode, size))
      && (r.Success? ==> (r.value.similarity.Some? <==> t.similarity.Some? && simKind(t.similarity.value) == NonZero))
      && (r.Success? && r.value.similarity.Some? ==> r.value.similarity == t.similarity)
  {
    var t := ParseTarget(target);
    if t.similarity.Some? && simKind(t.similarity.value) == NotANumber then
      Failure(InvalidSimilarity(t.similarity.value))
    else
      var sim := if t.similarity.Some? && simKind(t.similarity.value) == NonZero then t.similarity else None;
      Success(Pattern(t.image, MaskOf(t.mask), sim, TargetOffset(dx, dy, centerMode, size)))
  }

  lemma ExampleSimilarity()
    ensures ParseTarget("icon.png=0.85") == Target("icon.png", None, Some("0.85"))
  {
    var t := Target("icon.png", None, Some("0.85"));
    assert WellFormed(t);
    assert Format(t) == "icon.png=0.85";
    ParseFormat(t);
  }

  lemma ExampleMaskAndSimilarity()
    ensures ParseTarget("icon.png:mask.png=0.9") == Target("icon.png", Some("mask.png"), Some("0.9"))
  {
    var t := Target("icon.png", Some("mask.png"), Some("0.9"));
    assert WellFormed(t);
    assert Format(t) == "icon.png:mask.png=0.9";
    ParseFormat(t);
  }

  /** Text after a second ':' is dropped, not rejected. */
  lemma ExtraColonFieldDropped(image: string, segment: string, rest: string)
    requires ':' !in image && ':' !in segment
    ensures ParseTarget(image + [':'] + segment + [':'] + rest) == ParseTarget(image + [':'] + segment)
  {
    var long := image + [':'] + segment + [':'] + rest;
    var short := image + [':'] + segment;
    assert long == image + [':'] + (segment + [':'] + rest);
    SplitAt(image, segment + [':'] + rest, ':');
    SplitAt(segment, rest, ':');
    SplitAt(image, segment, ':');
    SplitNoSeparator(segment, ':');
  }

  /** Inside the mask segment, text after a second '=' is dropped as well. */
  lemma ExtraEqualsFieldDropped(image: string, mask: string, similarity: string, rest: string)
    requires ':' !in image && ':' !in mask && ':' !in similarity && ':' !in rest
    requires '=' !in mask && '=' !in similarity
    ensures ParseTarget(image + [':'] + mask + ['='] + similarity + ['='] + rest) == Target(image, Some(mask), Some(similarity))
  {
    var segment := mask + ['='] + similarity + ['='] + rest;
    assert image + [':'] + mask + ['='] + similarity + ['='] + rest == image + [':'] + segment;
    assert ':' !in segment;
    SplitAt(image, segment, ':');
    SplitNoSeparator(segment, ':');
    assert Split(image + [':'] + segment, ':') == [image, segment];
    assert segment == mask + ['='] + (similarity + ['='] + rest);
    SplitAt(mask, similarity + ['='] + rest, '=');
    SplitAt(similarity, rest, '=');
    assert Split(segment, '=')[0] == mask && Split(segment, '=')[1] == similarity;
  }
}
