/** Properties of the declaration language: the round trip from a written
    declaration back to its path pattern and method list, tolerance of any
    white space and commas between method names, and the cases the
    repository's tests pin down (deprecatedapi/middleware_patterns_test.go). */
module DeclarationProperties {
  import opened Wrappers
  import opened Text
  import opened Declarations

  /** A method name as an operator writes it: non-empty, with no white
      space, comma or bracket in it (any letter case). */
  predicate IsMethodWord(w: string) {
    && |w| > 0
    && forall k :: 0 <= k < |w| ==> !IsMethodSeparator(w[k]) && !IsUnicodeSpace(w[k]) && !IsBracket(w[k])
  }

  /** A non-empty run of white space and commas. */
  predicate IsSeparatorRun(s: string) {
    |s| > 0 && All(s, IsMethodSeparator)
  }

  /** words[0] seps[0] words[1] ... seps[n-1] words[n]. */
  function Interleave(words: seq<string>, seps: seq<string>): string
    requires |words| == |seps| + 1
    decreases |words|
  {
    if |words| == 1 then words[0] else words[0] + seps[0] + Interleave(words[1..], seps[1..])
  }

  function UpperAll(words: seq<string>): seq<string> {
    seq(|words|, i requires 0 <= i < |words| => Upper(words[i]))
  }

  /** A declaration written the way configuration files write it. */
  function FormatDeclaration(path: string, methods: seq<string>): string {
    if methods == [] then path else path + " [" + Join(methods, " ") + "]"
  }

  // ------------------------------------------------------------------
  // Helpers about interleavings
  // ------------------------------------------------------------------

  lemma {:induction false} InterleaveEnds(words: seq<string>, seps: seq<string>)
    requires |words| == |seps| + 1
    requires forall i :: 0 <= i < |words| ==> |words[i]| > 0
    ensures var s := Interleave(words, seps);
      && |s| > 0
      && s[0] == words[0][0]
      && s[|s| - 1] == words[|words| - 1][|words[|words| - 1]| - 1]
    decreases |words|
  {
    if |words| > 1 {
      InterleaveEnds(words[1..], seps[1..]);
      assert words[1..][|words[1..]| - 1] == words[|words| - 1];
    }
  }

  lemma {:induction false} InterleaveNoBracket(words: seq<string>, seps: seq<string>)
    requires |words| == |seps| + 1
    requires forall i :: 0 <= i < |words| ==> IsMethodWord(words[i])
    requires forall i :: 0 <= i < |seps| ==> IsSeparatorRun(seps[i])
    ensures All(Interleave(words, seps), IsNotBracket)
    decreases |words|
  {
    if |words| > 1 {
      InterleaveNoBracket(words[1..], seps[1..]);
      var rest := Interleave(words[1..], seps[1..]);
      var s := words[0] + seps[0] + rest;
      forall k | 0 <= k < |s| ensures IsNotBracket(s[k]) {
        if k < |words[0]| {
          assert s[k] == words[0][k];
        } else if k < |words[0]| + |seps[0]| {
          assert s[k] == seps[0][k - |words[0]|];
        } else {
          assert s[k] == rest[k - |words[0]| - |seps[0]|];
        }
      }
    }
  }

  lemma UpperWord(w: string)
    requires IsMethodWord(w)
    ensures IsMethodWord(Upper(w)) && ',' !in Upper(w)
  {
    assert forall k :: 0 <= k < |w| ==> Upper(w)[k] == UpperChar(w[k]);
  }

  lemma {:induction false} UpperInterleave(words: seq<string>, seps: seq<string>)
    requires |words| == |seps| + 1
    requires forall i :: 0 <= i < |seps| ==> IsSeparatorRun(seps[i])
    ensures Upper(Interleave(words, seps)) == Interleave(UpperAll(words), seps)
    decreases |words|
  {
    if |words| > 1 {
      var rest := Interleave(words[1..], seps[1..]);
      UpperAppend(words[0] + seps[0], rest);
      UpperAppend(words[0], seps[0]);
      assert forall k :: 0 <= k < |seps[0]| ==> !IsLowerAscii(seps[0][k]);
      UpperNoLower(seps[0]);
      UpperInterleave(words[1..], seps[1..]);
      assert UpperAll(words)[1..] == UpperAll(words[1..]);
    }
  }

  /** Every separator run between words collapses to exactly one comma. */
  lemma {:induction false} CollapseInterleave(words: seq<string>, seps: seq<string>)
    requires |words| == |seps| + 1
    requires forall i :: 0 <= i < |words| ==> IsMethodWord(words[i])
    requires forall i :: 0 <= i < |seps| ==> IsSeparatorRun(seps[i])
    ensures Collapse(Interleave(words, seps)) == Join(words, ",")
    decreases |words|
  {
    if |words| == 1 {
      CollapseToken(words[0], []);
      assert words[0] + [] == words[0];
    } else {
      var rest := Interleave(words[1..], seps[1..]);
      InterleaveEnds(words[1..], seps[1..]);
      assert Interleave(words, seps) == words[0] + (seps[0] + rest);
      CollapseToken(words[0], seps[0] + rest);
      CollapseRun(seps[0], rest);
      CollapseInterleave(words[1..], seps[1..]);
    }
  }

  lemma {:induction false} JoinIsInterleave(xs: seq<string>, sep: string)
    requires |xs| >= 1
    ensures Join(xs, sep) == Interleave(xs, seq(|xs| - 1, _ => sep))
    decreases |xs|
  {
    if |xs| > 1 {
      JoinIsInterleave(xs[1..], sep);
      assert seq(|xs| - 1, _ => sep)[1..] == seq(|xs[1..]| - 1, _ => sep);
    }
  }

  // ------------------------------------------------------------------
  // The method list
  // ------------------------------------------------------------------

  /** Whitespace tolerance and case normalisation: method names separated by
      any runs of white space and commas, with any white space around them,
      come out upper-cased and in the order they were written. */
  lemma MethodListOfSeparated(lead: string, words: seq<string>, seps: seq<string>, trail: string)
    requires |words| == |seps| + 1
    requires forall i :: 0 <= i < |words| ==> IsMethodWord(words[i])
    requires forall i :: 0 <= i < |seps| ==> IsSeparatorRun(seps[i])
    requires All(lead, IsUnicodeSpace) && All(trail, IsUnicodeSpace)
    ensures MethodList(lead + Interleave(words, seps) + trail) == UpperAll(words)
  {
    var core := Interleave(words, seps);
    InterleaveEnds(words, seps);
    TrimSpaceExact(lead, core, trail);
    var upperWords := UpperAll(words);
    UpperInterleave(words, seps);
    forall i | 0 <= i < |upperWords|
      ensures IsMethodWord(upperWords[i]) && ',' !in upperWords[i]
    {
      UpperWord(words[i]);
    }
    CollapseInterleave(upperWords, seps);
    SplitJoin(upperWords, ',');
    TrimSpaceIdempotent(lead + core + trail);
  }

  /** A blank bracket means every method. */
  lemma BlankMethodList(text: string)
    requires All(text, IsUnicodeSpace)
    ensures MethodList(text) == [AnyMethod]
  {
    TrimSpaceExact(text, [], []);
    assert text + [] + [] == text;
  }

  // ------------------------------------------------------------------
  // The path pattern
  // ------------------------------------------------------------------

  /** Converse of BracketText's contract: wherever the bracket group lies,
      group 3 is the text between its brackets. */
  lemma BracketTextGroup(s: string, j: nat, k: nat, l: nat)
    requires BracketGroupAt(s, j, k, l)
    ensures BracketText(s, j) == s[k + 1..l]
  {
    GroupDeterminedByScan(s, j);
  }

  /** The bracket group `gap [text]` right after position |x|. */
  lemma BracketTextOver(x: string, gap: string, text: string, tail: string)
    requires All(gap, IsRegexSpace)
    requires |text| > 0 && All(text, IsNotBracket)
    ensures BracketText(x + (gap + ("[" + (text + ("]" + tail)))), |x|) == text
  {
    var s := x + (gap + ("[" + (text + ("]" + tail))));
    var k := |x| + |gap|;
    var l := k + 1 + |text|;
    assert forall m :: |x| <= m < k ==> s[m] == gap[m - |x|];
    assert forall m :: k < m < l ==> s[m] == text[m - k - 1];
    assert s[k] == '[' && s[l] == ']';
    assert BracketGroupAt(s, |x|, k, l);
    BracketTextGroup(s, |x|, k, l);
    assert s[k + 1..l] == text;
  }

  /** Converse of FindPathPattern's contract: wherever the path token
      lies, the scanner reports it and reads group 3 right after it. */
  lemma FindPathPatternToken(s: string, i: nat, j: nat)
    requires PathTokenAt(s, i, j)
    ensures FindPathPattern(s) == Some(PathMatch(s[i..j], BracketText(s, j)))
  {
    SpanFromIs(s, 0, i, IsRegexSpace);
    SpanFromIs(s, i, j, IsNotRegexSpace);
  }

  lemma TokenAfterLead(lead: string, path: string, rest: string)
    requires All(lead, IsRegexSpace)
    requires |path| > 0 && All(path, IsNotRegexSpace)
    requires rest == [] || IsRegexSpace(rest[0])
    ensures PathTokenAt(lead + (path + rest), |lead|, |lead| + |path|)
    ensures (lead + (path + rest))[|lead|..|lead| + |path|] == path
  {
    var s := lead + (path + rest);
    assert forall m :: 0 <= m < |lead| ==> s[m] == lead[m];
    assert forall m :: |lead| <= m < |lead| + |path| ==> s[m] == path[m - |lead|];
    assert |lead| + |path| < |s| ==> s[|lead| + |path|] == rest[0];
  }

  /** With a bracket group after the path token, the captures are the path
      token and the text between the brackets; whatever follows the closing
      bracket is ignored, since the expression is not anchored. */
  lemma FindPathPatternWithGroup(lead: string, path: string, gap: string, text: string, tail: string)
    requires All(lead, IsRegexSpace)
    requires |path| > 0 && All(path, IsNotRegexSpace)
    requires |gap| > 0 && All(gap, IsRegexSpace)
    requires |text| > 0 && All(text, IsNotBracket)
    ensures FindPathPattern(lead + (path + (gap + ("[" + (text + ("]" + tail)))))) == Some(PathMatch(path, text))
  {
    var rest := "[" + (text + ("]" + tail));
    var s := lead + (path + (gap + rest));
    TokenAfterLead(lead, path, gap + rest);
    FindPathPatternToken(s, |lead|, |lead| + |path|);
    assert s == (lead + path) + (gap + rest);
    BracketTextOver(lead + path, gap, text, tail);
  }

  /** With only white space after the path token there is no bracket
      group, and the method text is empty. */
  lemma FindPathPatternBare(lead: string, path: string, trail: string)
    requires All(lead, IsRegexSpace)
    requires |path| > 0 && All(path, IsNotRegexSpace)
    requires All(trail, IsRegexSpace)
    ensures FindPathPattern(lead + (path + trail)) == Some(PathMatch(path, []))
  {
    var s := lead + (path + trail);
    var j := |lead| + |path|;
    assert PathTokenAt(s, |lead|, j) && s[|lead|..j] == path by {
      TokenAfterLead(lead, path, trail);
    }
    assert FindPathPattern(s) == Some(PathMatch(path, BracketText(s, j))) by {
      FindPathPatternToken(s, |lead|, j);
    }
    assert BracketText(s, j) == [] by {
      assert s == (lead + path) + (trail + []);
      SpanPrefix(lead + path, trail, [], IsRegexSpace);
    }
  }

  /** ParseDeclaration reads the method list from the captured bracket
      text. */
  lemma ParseDeclarationMatch(entry: string, path: string, text: string)
    requires FindPathPattern(entry) == Some(PathMatch(path, text))
    ensures ParseDeclaration(entry) == Some((path, MethodList(text)))
  {
  }

  /** A declaration with a bracket group parses to its path and the method
      list of the bracket text. */
  lemma ParseWithGroup(entry: string, lead: string, path: string, gap: string, text: string, tail: string)
    requires entry == lead + path + gap + "[" + text + "]" + tail
    requires All(lead, IsRegexSpace)
    requires |path| > 0 && All(path, IsNotRegexSpace)
    requires |gap| > 0 && All(gap, IsRegexSpace)
    requires |text| > 0 && All(text, IsNotBracket)
    ensures ParseDeclaration(entry) == Some((path, MethodList(text)))
  {
    assert entry == lead + (path + (gap + ("[" + (text + ("]" + tail)))));
    FindPathPatternWithGroup(lead, path, gap, text, tail);
    ParseDeclarationMatch(entry, path, text);
  }

  /** A declaration without a bracket group allows every method. */
  lemma ParseBare(entry: string, lead: string, path: string, trail: string)
    requires entry == lead + path + trail
    requires All(lead, IsRegexSpace)
    requires |path| > 0 && All(path, IsNotRegexSpace)
    requires All(trail, IsRegexSpace)
    ensures ParseDeclaration(entry) == Some((path, [AnyMethod]))
  {
    assert entry == lead + (path + trail);
    FindPathPatternBare(lead, path, trail);
    ParseDeclarationMatch(entry, path, []);
    BlankMethodList([]);
  }

  /** The bracket text of a formatted declaration: the names joined by
      single spaces, which is never empty and holds no bracket. */
  lemma FormattedText(methods: seq<string>)
    requires |methods| >= 1
    requires forall i :: 0 <= i < |methods| ==> IsMethodWord(methods[i])
    ensures |Join(methods, " ")| > 0 && All(Join(methods, " "), IsNotBracket)
    ensures MethodList(Join(methods, " ")) == UpperAll(methods)
  {
    var seps := seq(|methods| - 1, _ => " ");
    JoinIsInterleave(methods, " ");
    InterleaveEnds(methods, seps);
    InterleaveNoBracket(methods, seps);
    MethodListOfSeparated([], methods, seps, []);
    assert [] + Interleave(methods, seps) + [] == Join(methods, " ");
  }

  /** Grammar round trip: writing a path pattern and a list of method names
      as a declaration and parsing it back gives the path verbatim and the
      names upper-cased in order; no names at all gives "every method". */
  lemma ParseFormatted(path: string, methods: seq<string>)
    requires |path| > 0 && All(path, IsNotRegexSpace)
    requires forall i :: 0 <= i < |methods| ==> IsMethodWord(methods[i])
    ensures ParseDeclaration(FormatDeclaration(path, methods))
            == Some((path, if methods == [] then [AnyMethod] else UpperAll(methods)))
  {
    var entry := FormatDeclaration(path, methods);
    if methods == [] {
      assert entry == [] + path + [] by {
        assert [] + path + [] == path;
      }
      ParseBare(entry, [], path, []);
    } else {
      var text := Join(methods, " ");
      FormattedText(methods);
      FormattedShape(path, text);
      ParseWithGroup(entry, [], path, " ", text, []);
    }
  }

  lemma FormattedShape(path: string, text: string)
    ensures path + " [" + text + "]" == [] + path + " " + "[" + text + "]" + []
  {
    assert " [" == " " + "[";
  }

  /** Whitespace tolerance for a whole declaration: a path pattern followed
      by a bracket holding method names separated by any runs of white space
      and commas parses to the path and the upper-cased names, in order. */
  lemma ParseListedMethods(lead: string, path: string, gap: string, inLead: string,
                           words: seq<string>, seps: seq<string>, inTrail: string, tail: string)
    requires All(lead, IsRegexSpace)
    requires |path| > 0 && All(path, IsNotRegexSpace)
    requires |gap| > 0 && All(gap, IsRegexSpace)
    requires |words| == |seps| + 1
    requires forall i :: 0 <= i < |words| ==> IsMethodWord(words[i])
    requires forall i :: 0 <= i < |seps| ==> IsSeparatorRun(seps[i])
    requires All(inLead, IsRegexSpace) && All(inTrail, IsRegexSpace)
    ensures ParseDeclaration(lead + path + gap + "[" + (inLead + Interleave(words, seps) + inTrail) + "]" + tail)
            == Some((path, UpperAll(words)))
  {
    var core := Interleave(words, seps);
    var text := inLead + core + inTrail;
    assert |text| > 0 && All(text, IsNotBracket) by {
      InterleaveEnds(words, seps);
      InterleaveNoBracket(words, seps);
      forall k | 0 <= k < |text| ensures IsNotBracket(text[k]) {
        if k < |inLead| {
          assert text[k] == inLead[k];
        } else if k < |inLead| + |core| {
          assert text[k] == core[k - |inLead|];
        } else {
          assert text[k] == inTrail[k - |inLead| - |core|];
        }
      }
    }
    assert MethodList(text) == UpperAll(words) by {
      MethodListOfSeparated(inLead, words, seps, inTrail);
    }
    ParseWithGroup(lead + path + gap + "[" + text + "]" + tail, lead, path, gap, text, tail);
  }

  // ------------------------------------------------------------------
  // Cases from the repository's tests and the regular expression. Each
  // entry is written as the concatenation of its parts: leading white
  // space, path pattern, gap, bracket group, trailing text.
  // ------------------------------------------------------------------

  lemma UpperAllPlain(words: seq<string>)
    requires forall i, k :: 0 <= i < |words| && 0 <= k < |words[i]| ==> !IsLowerAscii(words[i][k])
    ensures UpperAll(words) == words
  {
    forall i | 0 <= i < |words| ensures Upper(words[i]) == words[i] {
      UpperNoLower(words[i]);
    }
  }

  /** Printable ASCII other than the space. */
  predicate IsVisibleAscii(c: char) { '!' <= c <= '~' }

  lemma VisibleIsToken(s: string)
    requires forall k :: 0 <= k < |s| ==> IsVisibleAscii(s[k])
    ensures All(s, IsNotRegexSpace)
  {
  }

  /** Names in upper-case ASCII letters are method words, and upper-casing
      leaves them alone. */
  lemma CapitalWords(words: seq<string>)
    requires forall i :: 0 <= i < |words| ==> |words[i]| > 0
    requires forall i, k :: 0 <= i < |words| && 0 <= k < |words[i]| ==> 'A' <= words[i][k] <= 'Z'
    ensures forall i :: 0 <= i < |words| ==> IsMethodWord(words[i])
    ensures UpperAll(words) == words
  {
    UpperAllPlain(words);
  }

  lemma V1PathIsToken()
    ensures All("/deprecated-api/v1/**", IsNotRegexSpace)
  {
    VisibleIsToken("/deprecated-api/v1/**");
  }

  lemma PlainMethodsText()
    ensures "" + Interleave(["POST", "GET", "DELETE"], [" ", " "]) + "" == "POST GET DELETE"
  {
  }

  lemma SpacedMethodsText()
    ensures " " + Interleave(["POST", "GET", "DELETE", "OPTIONS"], ["  ", "  ", " "]) + " " == " POST  GET  DELETE OPTIONS "
  {
    var words := ["POST", "GET", "DELETE", "OPTIONS"];
    var seps := ["  ", "  ", " "];
    assert words[1..] == ["GET", "DELETE", "OPTIONS"] && seps[1..] == ["  ", " "];
    SpacedMethodsTail();
    assert Interleave(words, seps) == "POST" + "  " + "GET  DELETE OPTIONS";
  }

  lemma SpacedMethodsTail()
    ensures Interleave(["GET", "DELETE", "OPTIONS"], ["  ", " "]) == "GET  DELETE OPTIONS"
  {
    var words := ["GET", "DELETE", "OPTIONS"];
    var seps := ["  ", " "];
    assert Interleave(words[2..], seps[2..]) == "OPTIONS";
    assert Interleave(words[1..], seps[1..]) == "DELETE" + " " + "OPTIONS";
  }

  // Methods are kept in declaration order.
  lemma PatternWithMethods()
    ensures ParseDeclaration("" + "/deprecated-api/v1/**" + " " + "[" + "POST GET DELETE" + "]" + "")
            == Some(("/deprecated-api/v1/**", ["POST", "GET", "DELETE"]))
  {
    CapitalWords(["POST", "GET", "DELETE"]);
    V1PathIsToken();
    PlainMethodsText();
    ParseListedMethods("", "/deprecated-api/v1/**", " ", "", ["POST", "GET", "DELETE"], [" ", " "], "", "");
  }

  // Runs of spaces, inside the bracket and around the entry, change nothing.
  lemma PatternWithSpacedMethods()
    ensures ParseDeclaration(" " + "/deprecated-api/v1/**" + " " + "[" + " POST  GET  DELETE OPTIONS " + "]" + " ")
            == Some(("/deprecated-api/v1/**", ["POST", "GET", "DELETE", "OPTIONS"]))
  {
    CapitalWords(["POST", "GET", "DELETE", "OPTIONS"]);
    V1PathIsToken();
    SpacedMethodsText();
    ParseListedMethods(" ", "/deprecated-api/v1/**", " ", " ", ["POST", "GET", "DELETE", "OPTIONS"], ["  ", "  ", " "], " ", " ");
  }

  // A bracket holding only white space means every method.
  lemma PatternWithEmptyMethods()
    ensures ParseDeclaration(" " + "/deprecated-api/v1/**" + " " + "[" + "  " + "]" + " ")
            == Some(("/deprecated-api/v1/**", [AnyMethod]))
  {
    BlankMethodList("  ");
    V1PathIsToken();
    ParseWithGroup(" " + "/deprecated-api/v1/**" + " " + "[" + "  " + "]" + " ", " ", "/deprecated-api/v1/**", " ", "  ", " ");
  }

  // No bracket at all means every method.
  lemma PatternWithoutMethods()
    ensures ParseDeclaration(" " + "/deprecated-api/v1/**" + " ") == Some(("/deprecated-api/v1/**", [AnyMethod]))
  {
    V1PathIsToken();
    ParseBare(" " + "/deprecated-api/v1/**" + " ", " ", "/deprecated-api/v1/**", " ");
  }

  lemma ComplexPathIsToken()
    ensures All("/path?/**/path4/{param1}*{param2}*{param3}", IsNotRegexSpace)
  {
    VisibleIsToken("/path?/**/path4/{param1}*{param2}*{param3}");
  }

  // The path pattern is kept verbatim: question marks, single and double
  // stars and braces included.
  lemma ComplexPatternKeptVerbatim()
    ensures ParseDeclaration(" " + "/path?/**/path4/{param1}*{param2}*{param3}" + " " + "[" + "GET" + "]" + "")
            == Some(("/path?/**/path4/{param1}*{param2}*{param3}", ["GET"]))
  {
    assert "" + Interleave(["GET"], []) + "" == "GET";
    CapitalWords(["GET"]);
    ComplexPathIsToken();
    ParseListedMethods(" ", "/path?/**/path4/{param1}*{param2}*{param3}", " ", "", ["GET"], [], "", "");
  }

  // The non-space run of the expression is greedy: a bracket written
  // without a space before it belongs to the path pattern, and the entry
  // allows every method.
  lemma BracketWithoutSpaceJoinsThePath()
    ensures ParseDeclaration("/a[GET]") == Some(("/a[GET]", [AnyMethod]))
  {
    assert "" + "/a[GET]" + "" == "/a[GET]";
    ParseBare("/a[GET]", "", "/a[GET]", "");
  }

  /** The split keeps empty pieces: a comma at the start of the bracket text
      gives an empty first method name. */
  lemma LeadingCommaGivesEmptyName(name: string)
    requires IsMethodWord(name)
    ensures MethodList("," + name) == ["", Upper(name)]
  {
    var text := "," + name;
    var upper := Upper(name);
    UpperWord(name);
    assert TrimSpace(text) == text by {
      TrimSpaceExact([], text, []);
      assert [] + text + [] == text;
    }
    assert Upper(text) == "," + upper by {
      UpperAppend(",", name);
      UpperNoLower(",");
    }
    assert Collapse("," + upper) == "," + upper by {
      CollapseToken(upper, []);
      assert upper + [] == upper;
      CollapseRun(",", upper);
    }
    assert SplitOn("," + upper, ',') == ["", upper] by {
      assert Join(["", upper], ",") == "," + upper;
      SplitJoin(["", upper], ',');
    }
    TrimSpaceIdempotent(text);
  }
}
