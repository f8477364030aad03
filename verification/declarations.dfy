/** The declaration language of deprecated endpoints and its conversion into
    the registry (deprecatedapi/middleware.go, PathPattern and
    ConvertPatterns).

    A declaration is `<ant-path> [M1 M2 ...]`. The Go code reads it with the
    unanchored regular expression `\s*(\S+)\s*(\[([^\[\]]+)]\s*)?`; this module
    replaces the expression by an explicit scanner with the same
    leftmost-first, greedy behaviour, then turns the bracket text into an
    upper-cased method list. */
module Declarations {
  import opened Wrappers
  import opened Text

  /** The source text of PathPattern, which the panic message quotes. */
  const PathPatternSource: string := @"\s*(\S+)\s*(\[([^\[\]]+)]\s*)?"

  /** The method list that stands for "every method". */
  const AnyMethod: string := "*"

  predicate IsBracket(c: char) { c == '[' || c == ']' }

  predicate IsNotBracket(c: char) { !IsBracket(c) }

  /** The two captures of PathPattern the conversion reads: group 1, the
      path pattern, and group 3, the bracket text ("" when the optional
      bracket group took no part in the match). */
  datatype PathMatch = PathMatch(antPattern: string, methodsStr: string)

  // ------------------------------------------------------------------
  // The regular expression, as a scanner
  // ------------------------------------------------------------------

  /** `\s*(\S+)` matched with the path token at s[i..j]: only white space
      before it, no white space inside it, and it cannot be extended. */
  ghost predicate PathTokenAt(s: string, i: nat, j: nat) {
    && i < j <= |s|
    && (forall k :: 0 <= k < i ==> IsRegexSpace(s[k]))
    && (forall k :: i <= k < j ==> !IsRegexSpace(s[k]))
    && (j == |s| || IsRegexSpace(s[j]))
  }

  /** `\s*\[([^\[\]]+)]` matched right after position `j`: white space up to
      `k`, '[' at `k`, ']' at `l`, and at least one character that is not a
      bracket in between. */
  ghost predicate BracketGroupAt(s: string, j: nat, k: nat, l: nat) {
    && j <= k
    && k + 1 < l < |s|
    && (forall m :: j <= m < k ==> IsRegexSpace(s[m]))
    && s[k] == '['
    && s[l] == ']'
    && (forall m :: k < m < l ==> !IsBracket(s[m]))
  }

  /** A bracket group after `j` can only start where the white space after
      `j` ends and can only close at the first bracket after that. */
  lemma GroupDeterminedByScan(s: string, j: nat)
    requires j <= |s|
    ensures forall k: nat, l: nat :: BracketGroupAt(s, j, k, l) ==>
              && k == SpanFrom(s, j, IsRegexSpace)
              && l == SpanFrom(s, k + 1, IsNotBracket)
  {
    forall k: nat, l: nat | BracketGroupAt(s, j, k, l)
      ensures k == SpanFrom(s, j, IsRegexSpace)
      ensures l == SpanFrom(s, k + 1, IsNotBracket)
    {
      SpanFromIs(s, j, k, IsRegexSpace);
      SpanFromIs(s, k + 1, l, IsNotBracket);
    }
  }

  /** Group 3 of PathPattern once the path token has ended at `j`: the text
      between the brackets when the optional group matches there, "" when it
      does not. */
  function BracketText(s: string, j: nat): (t: string)
    requires j <= |s|
    ensures t != [] ==> exists k: nat, l: nat :: BracketGroupAt(s, j, k, l) && t == s[k + 1..l]
    ensures t == [] ==> forall k: nat, l: nat :: !BracketGroupAt(s, j, k, l)
  {
    GroupDeterminedByScan(s, j);
    var k := SpanFrom(s, j, IsRegexSpace);
    if k < |s| && s[k] == '[' then
      var l := SpanFrom(s, k + 1, IsNotBracket);
      if k + 1 < l < |s| && s[l] == ']' then
        assert BracketGroupAt(s, j, k, l);
        s[k + 1..l]
      else
        []
    else
      []
  }

  /** PathPattern.FindStringSubmatch: no match exactly when the entry holds
      nothing but white space; otherwise the first run of non-white-space is
      the path pattern, kept verbatim, and group 3 is read right after it. */
  function FindPathPattern(s: string): (r: Option<PathMatch>)
    ensures r.None? <==> All(s, IsRegexSpace)
    ensures r.Some? ==> exists i: nat, j: nat :: PathTokenAt(s, i, j) && r.value == PathMatch(s[i..j], BracketText(s, j))
  {
    var i := SpanFrom(s, 0, IsRegexSpace);
    if i == |s| then
      None
    else
      var j := SpanFrom(s, i, IsNotRegexSpace);
      assert PathTokenAt(s, i, j);
      Some(PathMatch(s[i..j], BracketText(s, j)))
  }

  // ------------------------------------------------------------------
  // The method list
  // ------------------------------------------------------------------

  /** Method names as the conversion produces them: at least one, and none
      holds white space, a comma or a lower-case letter. */
  ghost predicate WellFormedMethods(methods: seq<string>) {
    && |methods| >= 1
    && forall i, ch :: 0 <= i < |methods| && ch in methods[i] ==> !IsMethodSeparator(ch) && !IsLowerAscii(ch)
  }

  lemma UpperHasNoLower(s: string)
    ensures forall ch :: ch in Upper(s) ==> !IsLowerAscii(ch)
  {
    forall ch | ch in Upper(s) ensures !IsLowerAscii(ch) {
      var k :| 0 <= k < |Upper(s)| && Upper(s)[k] == ch;
    }
  }

  /** The method list of one declaration from its bracket text: blank text
      means every method ("*"); otherwise the text is trimmed, upper-cased,
      every run of white space and commas becomes one comma, and the result
      is split at the commas, in declaration order. */
  function MethodList(group: string): (methods: seq<string>)
    ensures TrimSpace(group) == [] ==> methods == [AnyMethod]
    ensures TrimSpace(group) != [] ==> Join(methods, ",") == Collapse(Upper(TrimSpace(group)))
  {
    var methodsStr := TrimSpace(group);
    TrimSpaceIdempotent(group);
    if |TrimSpace(methodsStr)| != 0 then
      var collapsed := Collapse(Upper(methodsStr));
      JoinSplit(collapsed, ',');
      SplitOn(collapsed, ',')
    else
      [AnyMethod]
  }

  /** Splitting collapsed, upper-cased text yields upper-case names free of
      separators, of which only the first and the last can be empty. */
  lemma SplitCollapsedWellFormed(u: string)
    ensures var parts := SplitOn(Collapse(Upper(u)), ',');
      && WellFormedMethods(parts)
      && forall i :: 0 < i < |parts| - 1 ==> parts[i] != []
  {
    var upper := Upper(u);
    var collapsed := Collapse(upper);
    UpperHasNoLower(u);
    SplitInteriorNonEmpty(collapsed, ',');
    var parts := SplitOn(collapsed, ',');
    forall i, ch | 0 <= i < |parts| && ch in parts[i]
      ensures !IsMethodSeparator(ch) && !IsLowerAscii(ch)
    {
      assert CharsWithin(parts[i], collapsed);
      var k :| 0 <= k < |collapsed| && collapsed[k] == ch;
      assert ch == ',' || ch in upper;
    }
  }

  /** Every method name comes out upper-case and free of separators, and
      only the first or the last one can be empty (a comma at either end of
      the bracket text). */
  lemma MethodListWellFormed(group: string)
    ensures WellFormedMethods(MethodList(group))
    ensures forall i :: 0 < i < |MethodList(group)| - 1 ==> MethodList(group)[i] != []
  {
    var methodsStr := TrimSpace(group);
    TrimSpaceIdempotent(group);
    if |methodsStr| != 0 {
      SplitCollapsedWellFormed(methodsStr);
    }
  }

  /** One declaration: the path pattern and its method list, or None when
      PathPattern does not match. */
  function ParseDeclaration(entry: string): (r: Option<(string, seq<string>)>)
    ensures r.None? <==> All(entry, IsRegexSpace)
    ensures r.Some? ==> |r.value.0| > 0 && All(r.value.0, IsNotRegexSpace) && WellFormedMethods(r.value.1)
  {
    match FindPathPattern(entry)
    case None => None
    case Some(m) =>
      MethodListWellFormed(m.methodsStr);
      Some((m.antPattern, MethodList(m.methodsStr)))
  }

  // ------------------------------------------------------------------
  // ConvertPatterns
  // ------------------------------------------------------------------

  /** A configuration value as the configuration library hands it over. */
  datatype ConfigValue = Str(s: string) | List(items: seq<ConfigValue>) | Other

  /** Why ConvertPatterns panics: an entry that is not a string (the `.(string)`
      type assertion), or one PathPattern does not match. */
  datatype ConversionError = NotAString(index: nat) | InvalidPath(path: string)

  /** The panic text for an entry the expression does not match. */
  function InvalidPathMessage(path: string): string {
    "invalid path: '" + path + "' valid pattern: '" + PathPatternSource + "'"
  }

  function ParseEntry(v: ConfigValue): Option<(string, seq<string>)> {
    if v.Str? then ParseDeclaration(v.s) else None
  }

  function RejectionOf(v: ConfigValue, index: nat): ConversionError {
    if v.Str? then InvalidPath(v.s) else NotAString(index)
  }

  /** Element `i` is the first element `parse` rejects. */
  ghost predicate FirstRejected<T, U>(xs: seq<T>, parse: T -> Option<U>, i: int) {
    && 0 <= i < |xs|
    && parse(xs[i]).None?
    && forall j :: 0 <= j < i ==> parse(xs[j]).Some?
  }

  /** The elements parsed in order, the first rejected one aborting the
      whole sequence with `reject` of that element and its index. */
  function ParseEach<T, U, E>(xs: seq<T>, parse: T -> Option<U>, reject: (T, nat) -> E): (r: Result<seq<U>, E>)
    ensures r.Success? <==> forall i :: 0 <= i < |xs| ==> parse(xs[i]).Some?
    ensures r.Success? ==> |r.value| == |xs| && forall i :: 0 <= i < |xs| ==> parse(xs[i]) == Some(r.value[i])
    ensures r.Failure? ==> exists i :: FirstRejected(xs, parse, i) && r.error == reject(xs[i], i)
    decreases |xs|
  {
    if xs == [] then
      Success([])
    else
      var n := |xs| - 1;
      var prefix := xs[..n];
      assert forall i :: 0 <= i < n ==> prefix[i] == xs[i];
      match ParseEach(prefix, parse, reject)
      case Failure(e) =>
        assert forall i :: FirstRejected(prefix, parse, i) ==> FirstRejected(xs, parse, i);
        Failure(e)
      case Success(values) =>
        match parse(xs[n])
        case None =>
          assert FirstRejected(xs, parse, n);
          Failure(reject(xs[n], n))
        case Some(d) =>
          Success(values + [d])
  }

  /** No entry after `i` has the key `key`. */
  ghost predicate LastFor<V>(entries: seq<(string, V)>, i: nat, key: string) {
    forall j :: i < j < |entries| ==> entries[j].0 != key
  }

  /** The map the loop of ConvertPatterns fills, one entry after the other. */
  function BuildRegistry(entries: seq<(string, seq<string>)>): map<string, seq<string>>
    decreases |entries|
  {
    if entries == [] then map[]
    else
      var n := |entries| - 1;
      BuildRegistry(entries[..n])[entries[n].0 := entries[n].1]
  }

  /** The keys of the registry are exactly the declared path patterns, and
      each value is the method list of one of the entries with that key. */
  lemma {:induction false} BuildRegistryKeys(entries: seq<(string, seq<string>)>)
    ensures forall k :: k in BuildRegistry(entries) <==> exists i :: 0 <= i < |entries| && entries[i].0 == k
    ensures forall k :: k in BuildRegistry(entries) ==> exists i :: 0 <= i < |entries| && entries[i] == (k, BuildRegistry(entries)[k])
    decreases |entries|
  {
    if entries != [] {
      var n := |entries| - 1;
      var prefix := entries[..n];
      BuildRegistryKeys(prefix);
      var earlier := BuildRegistry(prefix);
      var registry := BuildRegistry(entries);
      assert registry == earlier[entries[n].0 := entries[n].1];
      forall k
        ensures k in registry <==> exists i :: 0 <= i < |entries| && entries[i].0 == k
      {
        if k in earlier {
          var i :| 0 <= i < |prefix| && prefix[i].0 == k;
          assert entries[i] == prefix[i];
        }
        if exists i :: 0 <= i < |entries| && entries[i].0 == k {
          var i :| 0 <= i < |entries| && entries[i].0 == k;
          if i < n {
            assert prefix[i] == entries[i];
          }
        }
      }
      forall k | k in registry
        ensures exists i :: 0 <= i < |entries| && entries[i] == (k, registry[k])
      {
        if k == entries[n].0 {
          assert entries[n] == (k, registry[k]);
        } else {
          var i :| 0 <= i < |prefix| && prefix[i] == (k, earlier[k]);
          assert entries[i] == prefix[i];
        }
      }
    }
  }

  /** Last write wins: an entry that no later entry shares its key with
      determines that key's method list. */
  lemma {:induction false} BuildRegistryLastWins(entries: seq<(string, seq<string>)>, i: nat)
    requires i < |entries| && LastFor(entries, i, entries[i].0)
    ensures entries[i].0 in BuildRegistry(entries)
    ensures BuildRegistry(entries)[entries[i].0] == entries[i].1
    decreases |entries|
  {
    var n := |entries| - 1;
    if i < n {
      var prefix := entries[..n];
      assert prefix[i] == entries[i];
      assert LastFor(prefix, i, prefix[i].0) by {
        forall j | i < j < |prefix| ensures prefix[j].0 != prefix[i].0 {
          assert prefix[j] == entries[j];
        }
      }
      BuildRegistryLastWins(prefix, i);
      assert entries[n].0 != entries[i].0;
    }
  }

  /** Entry `i` declares the key `key`. */
  ghost predicate DeclaresKey(patterns: seq<ConfigValue>, i: int, key: string) {
    0 <= i < |patterns| && ParseEntry(patterns[i]).Some? && ParseEntry(patterns[i]).value.0 == key
  }

  /** No entry after `i` declares `key` again. */
  ghost predicate LastDeclaration(patterns: seq<ConfigValue>, i: int, key: string) {
    forall j :: i < j < |patterns| ==> !DeclaresKey(patterns, j, key)
  }

  /** ConvertPatterns: the registry from path pattern to method list. It
      fails, reporting the first bad entry, exactly when some entry is not a
      string or holds nothing but white space. */
  function ConvertPatterns(patterns: seq<ConfigValue>): (r: Result<map<string, seq<string>>, ConversionError>)
    ensures r.Success? <==> forall i :: 0 <= i < |patterns| ==> ParseEntry(patterns[i]).Some?
    ensures r.Failure? ==> exists i :: FirstRejected(patterns, ParseEntry, i) && r.error == RejectionOf(patterns[i], i)
  {
    match ParseEach(patterns, ParseEntry, RejectionOf)
    case Failure(e) => Failure(e)
    case Success(entries) => Success(BuildRegistry(entries))
  }

  /** On success the keys are exactly the declared path patterns, kept
      verbatim. */
  lemma ConvertPatternsKeys(patterns: seq<ConfigValue>)
    requires ConvertPatterns(patterns).Success?
    ensures forall k :: k in ConvertPatterns(patterns).value <==> exists i :: DeclaresKey(patterns, i, k)
  {
    var entries := ParseEach(patterns, ParseEntry, RejectionOf).value;
    var registry := BuildRegistry(entries);
    assert ConvertPatterns(patterns).value == registry;
    BuildRegistryKeys(entries);
    forall k
      ensures k in registry <==> exists i :: DeclaresKey(patterns, i, k)
    {
      if k in registry {
        var i :| 0 <= i < |entries| && entries[i].0 == k;
        assert ParseEntry(patterns[i]) == Some(entries[i]);
        assert DeclaresKey(patterns, i, k);
      }
      if exists i :: DeclaresKey(patterns, i, k) {
        var i :| DeclaresKey(patterns, i, k);
        assert ParseEntry(patterns[i]) == Some(entries[i]);
      }
    }
  }

  /** Last write wins: each key maps to the methods of its LAST
      declaration. */
  lemma ConvertPatternsLastWins(patterns: seq<ConfigValue>, i: nat, key: string)
    requires ConvertPatterns(patterns).Success?
    requires DeclaresKey(patterns, i, key) && LastDeclaration(patterns, i, key)
    ensures key in ConvertPatterns(patterns).value
    ensures ConvertPatterns(patterns).value[key] == ParseEntry(patterns[i]).value.1
  {
    var entries := ParseEach(patterns, ParseEntry, RejectionOf).value;
    assert ConvertPatterns(patterns).value == BuildRegistry(entries);
    assert ParseEntry(patterns[i]) == Some(entries[i]);
    assert LastFor(entries, i, key) by {
      forall j | i < j < |entries| ensures entries[j].0 != key {
        assert ParseEntry(patterns[j]) == Some(entries[j]);
        assert !DeclaresKey(patterns, j, key);
      }
    }
    BuildRegistryLastWins(entries, i);
  }

  /** Every method list in the registry is well formed. */
  lemma ConvertPatternsWellFormed(patterns: seq<ConfigValue>)
    requires ConvertPatterns(patterns).Success?
    ensures forall k :: k in ConvertPatterns(patterns).value ==> WellFormedMethods(ConvertPatterns(patterns).value[k])
  {
    var entries := ParseEach(patterns, ParseEntry, RejectionOf).value;
    var registry := BuildRegistry(entries);
    assert ConvertPatterns(patterns).value == registry;
    BuildRegistryKeys(entries);
    forall k | k in registry
      ensures WellFormedMethods(registry[k])
    {
      var i :| 0 <= i < |entries| && entries[i] == (k, registry[k]);
      assert ParseEntry(patterns[i]) == Some(entries[i]);
    }
  }

  /** Converting one more entry appends its value to the converted prefix. */
  lemma ParseEachSnoc<T, U, E>(xs: seq<T>, x: T, parse: T -> Option<U>, reject: (T, nat) -> E, d: U)
    requires ParseEach(xs, parse, reject).Success? && parse(x) == Some(d)
    ensures ParseEach(xs + [x], parse, reject) == Success(ParseEach(xs, parse, reject).value + [d])
  {
    var ys := xs + [x];
    assert ys[..|xs|] == xs;
    assert ys[|xs|] == x;
  }

  /** Registering one more entry stores it over whatever the key held. */
  lemma BuildRegistrySnoc(entries: seq<(string, seq<string>)>, e: (string, seq<string>))
    ensures BuildRegistry(entries + [e]) == BuildRegistry(entries)[e.0 := e.1]
  {
    assert (entries + [e])[..|entries|] == entries;
  }

  /** A later declaration of a key replaces the earlier method list and
      leaves every other key as it was. */
  lemma LaterDeclarationOverwrites(patterns: seq<ConfigValue>, v: ConfigValue, key: string, methods: seq<string>)
    requires ConvertPatterns(patterns).Success?
    requires ParseEntry(v) == Some((key, methods))
    ensures ConvertPatterns(patterns + [v]).Success?
    ensures ConvertPatterns(patterns + [v]).value == ConvertPatterns(patterns).value[key := methods]
  {
    var entries := ParseEach(patterns, ParseEntry, RejectionOf).value;
    ParseEachSnoc(patterns, v, ParseEntry, RejectionOf, (key, methods));
    BuildRegistrySnoc(entries, (key, methods));
  }
}
