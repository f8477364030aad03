/** The start-up decision of the gate (deprecatedapi/middleware.go,
    DisableDeprecatedApi): read the switch, insist on the declarations when
    it is on, and build the registry the middleware will consult.

    The configuration store is represented by the two values it yields: the
    switch as text, absent when it is not configured, and the declarations
    as a configuration value, absent when the key does not exist.
    Registering the middleware and the listen hook is not modelled; the
    outcome says whether the middleware is installed and with which
    registry. */
module Startup {
  import opened Wrappers
  import opened Declarations
  import opened Gate
  import GoQuote

  const DisabledKey: string := "deprecated.api.disabled"
  const PatternsKey: string := "deprecated.api.patterns"

  /** The switch's value when it is not configured. */
  const DisabledDefault: string := "false"

  const PatternsMissingMessage: string :=
    "property 'deprecated.api.patterns' must be provided when property 'deprecated.api.disabled'=true"

  /** The spellings strconv.ParseBool accepts. */
  const TrueSpellings: set<string> := {"1", "t", "T", "TRUE", "true", "True"}
  const FalseSpellings: set<string> := {"0", "f", "F", "FALSE", "false", "False"}

  /** strconv.ParseBool: None is the syntax error. */
  function ParseBool(s: string): (r: Option<bool>)
    ensures r.Some? <==> s in TrueSpellings + FalseSpellings
    ensures r.Some? ==> (r.value <==> s in TrueSpellings)
  {
    match s
    case "1" => Some(true)
    case "t" => Some(true)
    case "T" => Some(true)
    case "TRUE" => Some(true)
    case "true" => Some(true)
    case "True" => Some(true)
    case "0" => Some(false)
    case "f" => Some(false)
    case "F" => Some(false)
    case "FALSE" => Some(false)
    case "false" => Some(false)
    case "False" => Some(false)
    case _ => None
  }

  /** The default the switch falls back to is itself a valid spelling, and
      it reads as false. */
  lemma DefaultIsFalse()
    ensures DisabledDefault in FalseSpellings
    ensures ParseBool(DisabledDefault) == Some(false)
  {
  }

  /** Why start-up fails. The first two are errors DisableDeprecatedApi
      returns; the last two are panics: the declarations are not a list, or
      one of them is not a string or not a pattern. */
  datatype StartupError =
    | InvalidBool(text: string)
    | PatternsMissing
    | PatternsNotAList
    | Conversion(error: ConversionError)
  {
    predicate IsPanic() { PatternsNotAList? || Conversion? }

    /** The text the source composes for the error; None for the failed
        type assertions, whose panic text the Go runtime writes, and for a
        switch text beyond ASCII, whose quoting is not modelled. */
    function Message(): (r: Option<string>)
      ensures InvalidBool? ==> (r.Some? <==> GoQuote.AllAscii(text))
    {
      match this
      case InvalidBool(text) =>
        (match GoQuote.Quote(text)
         case Some(quoted) => Some("strconv.ParseBool: parsing " + quoted + ": invalid syntax")
         case None => None)
      case PatternsMissing => Some(PatternsMissingMessage)
      case PatternsNotAList => None
      case Conversion(NotAString(_)) => None
      case Conversion(InvalidPath(path)) => Some(InvalidPathMessage(path))
    }
  }

  /** The error for an unparsable switch names the switch's text in Go's
      quoted form, and that form reads back as the text itself. */
  lemma InvalidBoolMessage(text: string)
    requires GoQuote.AllAscii(text)
    ensures var e := GoQuote.Escape(text);
            && InvalidBool(text).Message() == Some("strconv.ParseBool: parsing \"" + e + "\": invalid syntax")
            && GoQuote.Unescape(e) == Some(text)
  {
    var e := GoQuote.Escape(text);
    assert "strconv.ParseBool: parsing " + ("\"" + e + "\"") + ": invalid syntax"
        == "strconv.ParseBool: parsing \"" + e + "\": invalid syntax";
    GoQuote.UnescapeEscape(text);
  }

  /** The switch's text: the configured value or the default. */
  function SwitchText(disabledSetting: Option<string>): string {
    match disabledSetting
    case Some(text) => text
    case None => DisabledDefault
  }

  /** DisableDeprecatedApi. Success(None): the middleware is not installed;
      Success(Some(p)): it is installed with registry `p`. */
  function DisableDeprecatedApi(disabledSetting: Option<string>, patternsSetting: Option<ConfigValue>, matcher: AntMatcher)
    : (r: Result<Option<DisabledUrlPatterns>, StartupError>)
    ensures r == Failure(InvalidBool(SwitchText(disabledSetting))) <==> ParseBool(SwitchText(disabledSetting)).None?
    ensures r == Success(None) <==> ParseBool(SwitchText(disabledSetting)) == Some(false)
    ensures r.Success? && r.value.Some? <==>
              && ParseBool(SwitchText(disabledSetting)) == Some(true)
              && patternsSetting.Some? && patternsSetting.value.List?
              && ConvertPatterns(patternsSetting.value.items).Success?
    ensures r.Success? && r.value.Some? ==>
              r.value.value == DisabledUrlPatterns(ConvertPatterns(patternsSetting.value.items).value, matcher)
    ensures r == Failure(PatternsMissing) <==> ParseBool(SwitchText(disabledSetting)) == Some(true) && patternsSetting.None?
    ensures r.Failure? && r.error.IsPanic() ==> ParseBool(SwitchText(disabledSetting)) == Some(true) && patternsSetting.Some?
  {
    match ParseBool(SwitchText(disabledSetting))
    case None => Failure(InvalidBool(SwitchText(disabledSetting)))
    case Some(false) => Success(None)
    case Some(true) =>
      match patternsSetting
      case None => Failure(PatternsMissing)
      case Some(List(items)) =>
        (match ConvertPatterns(items)
         case Success(urlsMap) => Success(Some(DisabledUrlPatterns(urlsMap, matcher)))
         case Failure(e) => Failure(Conversion(e)))
      case Some(_) => Failure(PatternsNotAList)
  }

  /** With the switch not configured the gate stays off, whatever the
      declarations say. */
  lemma OffByDefault(patternsSetting: Option<ConfigValue>, matcher: AntMatcher)
    ensures DisableDeprecatedApi(None, patternsSetting, matcher) == Success(None)
  {
  }

  /** An installed gate holds every configured declaration: its registry
      has the declared pattern as a key, and a pattern declared more than
      once carries its last declaration's methods. */
  lemma InstalledRegistry(disabledSetting: Option<string>, items: seq<ConfigValue>, matcher: AntMatcher, i: nat, key: string)
    requires DisableDeprecatedApi(disabledSetting, Some(List(items)), matcher).Success?
    requires DisableDeprecatedApi(disabledSetting, Some(List(items)), matcher).value.Some?
    requires DeclaresKey(items, i, key) && LastDeclaration(items, i, key)
    ensures var p := DisableDeprecatedApi(disabledSetting, Some(List(items)), matcher).value.value;
            key in p.urlsMap && p.urlsMap[key] == ParseEntry(items[i]).value.1
  {
    ConvertPatternsLastWins(items, i, key);
  }
}
