# Deprecated-API gate: a Dafny model

This project models the deprecated-API gate of a Go microservice library. The
gate is a Fiber middleware that refuses requests to REST endpoints an operator
has declared deprecated.

The operator configures two properties:

- `deprecated.api.disabled`, a boolean switch.
- `deprecated.api.patterns`, a list of declarations of the form
  `<ant-path-pattern> [METHOD METHOD ...]`.

At start-up the declarations are parsed into a registry that maps each pattern
to its method list. A missing or blank bracket means `*`, every method. Each
request is then looked up in the registry:

- When some pattern matches the raw request URI and lists the request's method
  (or `*`), the request is declined with 404. The error response carries the
  code `NC-COMMON-2101` and a detail message naming the request and the
  matching declaration.
- Otherwise the request is handed on.

When the server starts listening, the gate also reports every registered route
it disables. To do this it normalises each Fiber route template: parameters
and wildcards become `param`. It then runs the same lookup and lists the
routes sorted by path as `<path> [M1,M2]`.

The model is split into modules that follow the source:

| module | file | models |
|---|---|---|
| `Wrappers` | wrappers.dfy | `Option` and `Result` |
| `Text` | text.dfy | regex `\s` and `unicode.IsSpace`, `strings.TrimSpace`, `ToUpper`, `Join`, `Split`, the `[\s,]+` collapse |
| `Sorting` | sorting.dfy | Go's string order and `sort.Strings` over a map's keys |
| `Declarations` | declarations.dfy | `PathPattern` as a scanner, the method list, `ConvertPatterns` |
| `DeclarationProperties` | declaration_properties.dfy | the grammar's round trip, whitespace tolerance, the repository's pattern cases |
| `RouteNormalizer` | normalizer.dfy | `FiberParamsAndWildcardsPattern` replacement |
| `DeprecatedErrors` | errors.dfy | `CreateErrorResponse` and its detail message |
| `Gate` | gate.dfy | `getDisabledPathAndMethods`, `disableDeprecatedApiHandler`, `getDisabledEndpoints` |
| `GoQuote` | quote.dfy | `strconv.Quote` on ASCII text, as the switch's syntax error uses it |
| `Startup` | startup.dfy | the decision of `DisableDeprecatedApi` |

Four external pieces are parameters or plain values:

- **The Ant-style matcher** (`antpath.AntPathMatcher.Match`) is a function
  parameter, so every property holds for any matcher.
- **The configuration store** is represented by the values it yields.
- **Fiber's route stack** is a sequence of `(path, method)` routes.
- **The request** is its raw URI text and its method.

Go's map iteration order is unspecified. The lookup is therefore a method that
may visit the registry keys in any order, and its contract covers every order.

The detail formats the `[]string` of methods with `%s` inside `[...]`, and Go
prints a string slice as its elements separated by spaces within brackets, so
the message reads `[[GET POST]] <pattern>`.
`DeprecatedErrors.MethodsInDoubleBrackets` states this.

## Model

| member | source | states |
|---|---|---|
| `Text.TrimSpace` | deprecatedapi/middleware.go:61-63 | the result is a piece of the input with only Unicode white space around it, and it neither starts nor ends with white space |
| `Text.TrimSpaceExact` | deprecatedapi/middleware.go:61 | trimming recovers exactly a core placed between two runs of white space |
| `Text.TrimSpaceIdempotent` | deprecatedapi/middleware.go:61-63 | trimming twice, as the code does, is trimming once |
| `Text.SplitOn` | deprecatedapi/middleware.go:64 | every piece is free of the separator and made of input characters; the first or last piece is empty exactly when the input starts or ends with the separator |
| `Text.JoinSplit` | deprecatedapi/middleware.go:64 | joining the pieces of a split with the separator gives the input back |
| `Text.SplitJoin` | deprecatedapi/middleware.go:64 | splitting a join recovers the elements when none contains the separator |
| `Text.SplitInteriorNonEmpty` | deprecatedapi/middleware.go:64 | without adjacent separators only the first and last piece can be empty |
| `Text.Collapse` | deprecatedapi/middleware.go:64 | replacing every `[\s,]+` run by one comma leaves no white space and no two adjacent commas, adds no character other than the comma, and puts a comma at an end exactly when the input had a separator there |
| `Text.CollapseKeepsOthers` | deprecatedapi/middleware.go:64 | the characters other than white space and commas come out exactly as they went in, in order |
| `Text.CollapseRun` | deprecatedapi/middleware.go:64 | a run of separators before a token collapses to one comma |
| `Text.Upper` | deprecatedapi/middleware.go:64 | the result has the input's length and no lower-case ASCII letter; a character changes exactly when it is a lower-case letter, and then becomes its capital |
| `Text.Join` | deprecatedapi/middleware.go:99 | no contract of its own: `Text.JoinSplit` and `Text.SplitJoin` pair it with `Text.SplitOn` as mutual inverses, and `Text.JoinAvoids` bounds its characters |
| `Text.JoinAvoids` | deprecatedapi/errors.go:17-18 | a character in no element and not in the separator is not in the join |
| `Sorting.LexTotal` | deprecatedapi/middleware.go:96 | Go's string order is total |
| `Sorting.LexTransitive` | deprecatedapi/middleware.go:96 | Go's string order is transitive |
| `Sorting.LeastExists` | deprecatedapi/middleware.go:92-96 | every non-empty set of keys has a least element |
| `Sorting.SortedSet` | deprecatedapi/middleware.go:92-96 | the keys in strictly ascending order, each exactly once |
| `Sorting.SortedEnumerationUnique` | deprecatedapi/middleware.go:92-96 | whatever order the map yields its keys in, sorting gives the same sequence |
| `Declarations.GroupDeterminedByScan` | deprecatedapi/middleware.go:18 | the optional bracket group after the path token is fixed by where the white-space run and the bracket-free run end |
| `Declarations.BracketText` | deprecatedapi/middleware.go:18 | the third capture is the text of a bracket group if one follows the path token, and empty if none does |
| `Declarations.FindPathPattern` | deprecatedapi/middleware.go:18 | the expression fails to match exactly when the entry is all regex white space; otherwise the path is a maximal non-space run after leading white space, with its bracket text |
| `Declarations.MethodList` | deprecatedapi/middleware.go:61-67 | a blank group gives `[*]`; otherwise the names joined by commas are the collapsed, upper-cased, trimmed group text |
| `Declarations.MethodListWellFormed` | deprecatedapi/middleware.go:61-67 | method names hold no separator and no lower-case letter, and only the first or last can be empty |
| `Declarations.ParseDeclaration` | deprecatedapi/middleware.go:55-67 | an entry is rejected exactly when it is all white space; an accepted path is non-empty and space-free, with well-formed methods |
| `Declarations.ParseEach` | deprecatedapi/middleware.go:54-59 | converting a list succeeds exactly when every entry converts, in order; otherwise it fails with the first rejected entry |
| `Declarations.BuildRegistryKeys` | deprecatedapi/middleware.go:68 | the registry's keys are the declared paths, and each value is one declared for that path |
| `Declarations.BuildRegistryLastWins` | deprecatedapi/middleware.go:68 | a path declared more than once keeps its last declaration's methods |
| `Declarations.ConvertPatterns` | deprecatedapi/middleware.go:52-71 | conversion succeeds exactly when every entry is a string the expression matches, and otherwise reports the first offending entry as the panic would |
| `Declarations.ConvertPatternsKeys` | deprecatedapi/middleware.go:52-71 | the registry's keys are exactly the declared path patterns |
| `Declarations.ConvertPatternsLastWins` | deprecatedapi/middleware.go:68 | a pattern carries the methods of its last declaration |
| `Declarations.ConvertPatternsWellFormed` | deprecatedapi/middleware.go:60-68 | every method list in the registry is well formed |
| `Declarations.LaterDeclarationOverwrites` | deprecatedapi/middleware.go:68 | appending a declaration overwrites that pattern's entry and leaves the others unchanged |
| `DeclarationProperties.MethodListOfSeparated` | deprecatedapi/middleware.go:61-64 | names separated by any runs of white space and commas, with white space around them, give the upper-cased names in order |
| `DeclarationProperties.BlankMethodList` | deprecatedapi/middleware.go:63-66 | a blank bracket means every method |
| `DeclarationProperties.FindPathPatternToken` | deprecatedapi/middleware.go:18 | the match is the path token wherever it lies, with its bracket text |
| `DeclarationProperties.FindPathPatternWithGroup` | deprecatedapi/middleware.go:18 | white space, a path, a gap and a bracket group capture the path and the group text |
| `DeclarationProperties.FindPathPatternBare` | deprecatedapi/middleware.go:18 | a path with only white space around it captures the path and no methods |
| `DeclarationProperties.ParseWithGroup` | deprecatedapi/middleware.go:55-68 | a declaration with a bracket group parses to its path and the method list of the group text |
| `DeclarationProperties.ParseBare` | deprecatedapi/middleware.go:55-67 | a declaration without a bracket allows every method |
| `DeclarationProperties.ParseFormatted` | deprecatedapi/middleware.go:55-67 | formatting a path and method names as a declaration and parsing it gives back the path and the upper-cased names, or `[*]` for none |
| `DeclarationProperties.ParseListedMethods` | deprecatedapi/middleware.go:55-67 | white space around the entry, around the bracket contents and between names changes nothing |
| `DeclarationProperties.PatternWithMethods` | deprecatedapi/middleware_patterns_test.go:8-14 | `/deprecated-api/v1/** [POST GET DELETE]` keeps its methods in order |
| `DeclarationProperties.PatternWithSpacedMethods` | deprecatedapi/middleware_patterns_test.go:16-22 | extra spaces inside and around the entry are ignored |
| `DeclarationProperties.PatternWithEmptyMethods` | deprecatedapi/middleware_patterns_test.go:24-30 | a blank bracket gives `[*]` |
| `DeclarationProperties.PatternWithoutMethods` | deprecatedapi/middleware_patterns_test.go:32-38 | no bracket gives `[*]` |
| `DeclarationProperties.ComplexPatternKeptVerbatim` | deprecatedapi/middleware_patterns_test.go:40-46 | the path pattern is kept verbatim, with `?`, `**`, `*` and braces |
| `DeclarationProperties.BracketWithoutSpaceJoinsThePath` | deprecatedapi/middleware.go:18 | a bracket written without a space before it becomes part of the path, and the entry allows every method |
| `DeclarationProperties.LeadingCommaGivesEmptyName` | deprecatedapi/middleware.go:64 | the split keeps empty pieces, so a leading comma gives an empty first method name |
| `RouteNormalizer.Normalize` | deprecatedapi/middleware.go:19 | the result holds no `:`, `+` or `*`, and keeps the input's `/`, `.` and `-` in order |
| `RouteNormalizer.NormalizeAppend` | deprecatedapi/middleware.go:19 | text without `:` is normalised character by character, so what follows it is normalised on its own and every literal character stays in place |
| `RouteNormalizer.NormalizeInnerWildcard` | deprecatedapi/middleware.go:19 | a wildcard after literal text in a segment, as in `/file*` or `/a+b`, becomes `param` between the text around it |
| `RouteNormalizer.NormalizeTrailingParameter` | deprecatedapi/middleware.go:19 | a parameter after literal text in a segment, as in `/v:id`, becomes `param` after that text |
| `RouteNormalizer.NormalizePlain` | deprecatedapi/middleware.go:19 | a path without parameters or wildcards is unchanged |
| `RouteNormalizer.NormalizeIdempotent` | deprecatedapi/middleware.go:79 | normalising twice is normalising once |
| `RouteNormalizer.NormalizeAround` | deprecatedapi/middleware.go:19 | a delimiter splits the work: the parts on either side are normalised on their own |
| `RouteNormalizer.NormalizeParameter` | deprecatedapi/middleware.go:19 | `:` followed by non-delimiters, `?` included, becomes one `param` |
| `RouteNormalizer.NormalizeWildcard` | deprecatedapi/middleware.go:19 | each `+` or `*` becomes one `param` |
| `RouteNormalizer.JoinedParameters` | deprecatedapi/middleware.go:19 | two parameters joined by a delimiter become `param`, the delimiter, `param` |
| `RouteNormalizer.NormalizeOptionalParameters` | deprecatedapi/middleware_test.go:105-106 | `/inner/wildcard/:param1?-:param2` and `/inner/wildcard/:param1?.:param2` become `param-param` and `param.param` |
| `RouteNormalizer.NormalizeExtension` | deprecatedapi/middleware_test.go:109 | `/inner/extension/:name.html` becomes `/inner/extension/param.html` |
| `RouteNormalizer.NormalizeWildcards` | deprecatedapi/middleware_test.go:107-108 | a trailing `+` or `*` segment becomes `param` |
| `DeprecatedErrors.FormatStrings` | deprecatedapi/errors.go:17-18 | `%s` on a string slice is bracketed at both ends |
| `DeprecatedErrors.CreateErrorResponse` | deprecatedapi/errors.go:10-22 | the response carries code `NC-COMMON-2101` and its title, the given status, and a detail that starts with the request and the declined sentence and ends with the matched methods and pattern |
| `DeprecatedErrors.DeclinedMessage` | deprecatedapi/middleware_test.go:23 | every detail contains "is declined with 404 Not Found, because the following deprecated REST API is disabled" |
| `DeprecatedErrors.MethodsInDoubleBrackets` | deprecatedapi/errors.go:17-18 | the matched methods appear space-separated inside double brackets |
| `DeprecatedErrors.DetailRoundTrip` | deprecatedapi/errors.go:17-18 | the detail can be read back into method, URI, methods and pattern when those hold no delimiter of the message |
| `Gate.GetDisabledPathAndMethods` | deprecatedapi/middleware.go:117-129 | in any visiting order, a found pattern matches the URI and lists the method or `*`, its whole list is returned, and nothing is found exactly when no declaration disables the request |
| `Gate.CaseSensitiveMethods` | deprecatedapi/middleware.go:121 | names are compared exactly, so on a parsed registry a method with a lower-case letter is caught only by `*` |
| `Gate.LookupExample` | deprecatedapi/middleware.go:117-129 | with `/deprecated/v1/** [GET POST]`, GET on a matched URI is disabled, PUT is not, and an unmatched URI never is |
| `Gate.DisableDeprecatedApiHandler` | deprecatedapi/middleware.go:104-115 | a request is declined with 404 exactly when some declaration disables it, with the error response for one such declaration; otherwise it is handed on |
| `Gate.MethodsForMembers` | deprecatedapi/middleware.go:80-89 | a method is listed for a path exactly when a disabled route with that path and method is registered |
| `Gate.CollectDisabledIsMethodsFor` | deprecatedapi/middleware.go:74-91 | the map the loop builds has the disabled paths as keys, each holding its disabled methods in route order |
| `Gate.DisabledEndpoints` | deprecatedapi/middleware.go:73-102 | one line per disabled path, in ascending path order, each `path [M1,M2]` listing that path's disabled methods in route order |
| `Gate.ReportSound` | deprecatedapi/middleware.go:80-100 | every reported path and method is a registered route whose normalised path the lookup disables |
| `Gate.ReportComplete` | deprecatedapi/middleware.go:80-100 | every disabled route has its path reported, with its method listed |
| `Startup.ParseBool` | deprecatedapi/middleware.go:28 | accepted exactly for the twelve spellings of `strconv.ParseBool`, true exactly for `1 t T TRUE true True` |
| `Startup.DefaultIsFalse` | deprecatedapi/middleware.go:28 | the switch's default text `"false"` is a valid spelling and reads as false |
| `GoQuote.Escape` | deprecatedapi/middleware.go:28-31 | the escaped text is printable ASCII, and every double quote in it follows a backslash |
| `GoQuote.Quote` | deprecatedapi/middleware.go:28-31 | the switch text is quoted exactly when it is ASCII |
| `GoQuote.UnescapeEscape` | deprecatedapi/middleware.go:28-31 | reading the escapes back returns the original text, for every ASCII text |
| `Startup.InvalidBoolMessage` | deprecatedapi/middleware.go:28-31 | the error for an unparsable switch names the switch text in Go's quoted form, and that form reads back as the text |
| `Startup.DisableDeprecatedApi` | deprecatedapi/middleware.go:27-50 | an unparsable switch is an error; false leaves the gate off; true without patterns is the "must be provided" error; true with a convertible list installs the gate with that registry; a non-list or bad entry panics |
| `Startup.OffByDefault` | deprecatedapi/middleware.go:28 | with the switch not configured the gate stays off |
| `Startup.InstalledRegistry` | deprecatedapi/middleware.go:36-41 | an installed gate holds every configured pattern, with its last declaration's methods |

## Left out

- **The Ant path matching algorithm** (`go-antpath`) is a library outside this
  model. It is a parameter of every operation, so the properties hold for any
  matcher. Concrete matching results, such as `**` crossing segments, are not
  modelled.
- **Registering the middleware** (`app.Use`) and the `OnListen` hook are left
  out, as are writing the JSON response body, the content-type header and the
  warning logs. `Startup.DisableDeprecatedApi` returns whether the gate is
  installed and with which registry, and `Gate.DisabledEndpoints` returns the
  report lines rather than logging them joined by newlines.
- **Configuration loading.** The switch is its text or absent, and then defaults
  to `false`. The patterns are a configuration value or absent. How
  `configloader` finds them is not part of this model.
- **The tmf response conversion.** `CreateErrorResponse` is modelled by the
  values it passes to `tmf.ErrToResponse`: code, title, detail and status. The
  conversion itself is not part of this model.
- **Panics are failures.** The `.(string)` and `.([]interface{})` type
  assertions and the `invalid path` panic become `Failure` values. Their
  runtime panic texts are not modelled.
- `Text.Upper`: `strings.ToUpper` is modelled for ASCII letters only. Method
  names are HTTP tokens, and non-ASCII case mapping is left out.
- **Characters, not bytes.** Strings are sequences of Unicode scalar values
  where Go uses UTF-8 bytes. The regex classes and Go's string order agree on
  both readings, and invalid UTF-8 is not modelled.
- **The request URI** is the raw text of `RequestURI()`, and the route stack is
  the flat sequence of routes in the order `app.Stack()` lists them.
- `Gate.GetDisabledPathAndMethods`: when several declarations disable a
  request, which one is returned depends on Go's map order. The contract says
  only that the one returned qualifies, not which it is. The same holds for
  the response `Gate.DisableDeprecatedApiHandler` builds, though whether a
  request is declined is fully determined.
- `GoQuote.Quote`: text holding a character beyond ASCII is not quoted, and
  `Startup.StartupError.Message` gives no text for such a switch value. Go
  escapes those characters according to Unicode's printability tables, which
  are not modelled.
- **The `len(matched) != 4` test** of `ConvertPatterns` can never fire, because
  the expression always has three groups. Only the no-match case is modelled.
- `DeprecatedErrors.DetailRoundTrip` requires the method and URI to hold no
  `]` or `'`, and each method name to hold no space or `]`. Otherwise the
  message is ambiguous.
- `DeclarationProperties.PatternWithMethods` and the other repository pattern
  cases state each entry as a concatenation of its parts: leading space, path,
  gap, bracket and trailing text.
- `RouteNormalizer.NormalizeOptionalParameters`,
  `RouteNormalizer.NormalizeExtension` and `RouteNormalizer.NormalizeWildcards`
  are stated for any route prefix without parameters and any parameter names,
  rather than for the test's literal routes alone.
