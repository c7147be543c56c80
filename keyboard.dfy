/**
  Special-key tokens of `SikuliXRegion.region_type`. A text or modifier naming
  `SikuliXJClass.Key.<NAME>` is resolved to the engine's key constant through
  `lookup`, the engine's field lookup, which may fail.
 */
module Keyboard {
  import opened Wrappers
  import opened Text
  import opened Engine

  const KeyPrefix := "SikuliXJClass.Key"

  /** The key argument: a resolved key constant, or text typed literally. */
  datatype KeyArgument = KeyConstant(code: string) | Literal(text: string)

  /** The second argument of `type`: absent, null, or a resolved modifier constant. */
  datatype ModifierArgument = NoModifierArgument | NullModifier | ModifierKey(code: string)

  datatype TypeArguments = TypeArguments(key: KeyArgument, modifier: ModifierArgument)

  /** The name read from a key token: the third '.'-separated field, when there is one. */
  function KeyName(token: string): (r: Option<string>)
    ensures r.Some? <==> |Split(token, '.')| >= 3
    ensures r.Some? ==> '.' !in r.value
  {
    var parts := Split(token, '.');
    if |parts| < 3 then None else Some(parts[2])
  }

  /** `KeyName` is the text between the second and third '.', and exists exactly when there are two '.'. */
  lemma KeyNameFields(token: string)
    ensures KeyName(token).Some? <==> Count(token, '.') >= 2
    ensures KeyName(token).Some? ==>
      && '.' in token && '.' in Tail(token, '.')
      && KeyName(token).value == Head(Tail(Tail(token, '.'), '.'), '.')
  {
    SplitCount(token, '.');
    if Count(token, '.') >= 2 {
      SplitFields(token, '.');
      SplitHeadTail(token, '.');
      SplitFields(Tail(token, '.'), '.');
      assert Split(token, '.')[2] == Split(Tail(token, '.'), '.')[1];
    }
  }

  /**
    The key argument: a token without the prefix is typed as it is; with the prefix,
    a token without a third field raises, and a name the lookup does not know falls
    back to typing that name literally.
   */
  function KeyArgumentOf(text: string, lookup: string -> Option<string>): (r: Result<KeyArgument, Error>)
    ensures !IsInfix(KeyPrefix, text) ==> r == Success(Literal(text))
    ensures IsInfix(KeyPrefix, text) ==> (r.Failure? <==> KeyName(text).None?)
    ensures r.Failure? ==> r.error == MissingKeyField
    ensures IsInfix(KeyPrefix, text) && KeyName(text).Some? ==>
      r == Success(if lookup(KeyName(text).value).Some? then KeyConstant(lookup(KeyName(text).value).value) else Literal(KeyName(text).value))
  {
    if IsInfix(KeyPrefix, text) then
      match KeyName(text)
      case None => Failure(MissingKeyField)
      case Some(name) =>
        match lookup(name)
        case Some(code) => Success(KeyConstant(code))
        case None => Success(Literal(name))
    else Success(Literal(text))
  }

  /** The modifier argument: unlike a key, a modifier the lookup does not know raises. A modifier that does not name a key is passed as null. */
  function ModifierArgumentOf(modifier: Option<string>, lookup: string -> Option<string>): (r: Result<ModifierArgument, Error>)
    ensures modifier.None? ==> r == Success(NoModifierArgument)
    ensures modifier.Some? && !IsInfix(KeyPrefix, modifier.value) ==> r == Success(NullModifier)
    ensures modifier.Some? && IsInfix(KeyPrefix, modifier.value) ==>
      match KeyName(modifier.value)
      case None => r == Failure(MissingKeyField)
      case Some(name) => r == (if lookup(name).Some? then Success(ModifierKey(lookup(name).value)) else Failure(UnknownKey(name)))
  {
    match modifier
    case None => Success(NoModifierArgument)
    case Some(m) =>
      if m != "" && IsInfix(KeyPrefix, m) then
        match KeyName(m)
        case None => Failure(MissingKeyField)
        case Some(name) =>
          match lookup(name)
          case Some(code) => Success(ModifierKey(code))
          case None => Failure(UnknownKey(name))
      else Success(NullModifier)
  }

  /** The arguments of `type`: the key is resolved first, so its error wins. */
  function TypeArgumentsOf(text: string, modifier: Option<string>, lookup: string -> Option<string>): (r: Result<TypeArguments, Error>)
    ensures r.Success? <==> KeyArgumentOf(text, lookup).Success? && ModifierArgumentOf(modifier, lookup).Success?
    ensures KeyArgumentOf(text, lookup).Failure? ==> r == Failure(KeyArgumentOf(text, lookup).error)
    ensures r.Success? ==> r.value == TypeArguments(KeyArgumentOf(text, lookup).value, ModifierArgumentOf(modifier, lookup).value)
  {
    match KeyArgumentOf(text, lookup)
    case Failure(e) => Failure(e)
    case Success(key) =>
      match ModifierArgumentOf(modifier, lookup)
      case Failure(e) => Failure(e)
      case Success(m) => Success(TypeArguments(key, m))
  }
}
