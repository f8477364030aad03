/** The route normaliser of the startup report (deprecatedapi/middleware.go,
    FiberParamsAndWildcardsPattern and its use in getDisabledEndpoints).

    Before a registered Fiber route is checked against the declarations, its
    path template is turned into a concrete-looking path: the Go code replaces
    every match of `(:[^/\.-]*[?]?)|([+*])` by the word "param". Scanning
    left to right, a ':' starts a parameter token that runs up to the next
    '/', '.' or '-' (the optional '?' of the expression never adds anything,
    because the starred class already takes every '?'), and each '+' or '*'
    on its own is a wildcard. */
module RouteNormalizer {
  import opened Text

  /** What every parameter and wildcard becomes. */
  const Param: string := "param"

  /** The characters that end a parameter token. */
  predicate IsParamDelimiter(c: char) { c == '/' || c == '.' || c == '-' }

  predicate IsParamChar(c: char) { !IsParamDelimiter(c) }

  predicate IsWildcard(c: char) { c == '+' || c == '*' }

  /** A character the normaliser never leaves in its output. */
  predicate IsRouteMarker(c: char) { c == ':' || IsWildcard(c) }

  /** The delimiters of `s`, in order: the skeleton normalisation keeps. */
  function Delimiters(s: string): string
    decreases |s|
  {
    if s == [] then []
    else (if IsParamDelimiter(s[0]) then [s[0]] else []) + Delimiters(s[1..])
  }

  lemma {:induction false} DelimitersAppend(a: string, b: string)
    ensures Delimiters(a + b) == Delimiters(a) + Delimiters(b)
    decreases |a|
  {
    if a == [] {
      assert a + b == b;
    } else {
      var head := if IsParamDelimiter(a[0]) then [a[0]] else [];
      assert (a + b)[0] == a[0];
      assert (a + b)[1..] == a[1..] + b;
      assert Delimiters(a + b) == head + Delimiters(a[1..] + b);
      assert Delimiters(a) == head + Delimiters(a[1..]);
      DelimitersAppend(a[1..], b);
      assert head + (Delimiters(a[1..]) + Delimiters(b)) == (head + Delimiters(a[1..])) + Delimiters(b);
    }
  }

  lemma {:induction false} NoDelimiters(s: string)
    requires All(s, IsParamChar)
    ensures Delimiters(s) == []
    decreases |s|
  {
    if s != [] {
      NoDelimiters(s[1..]);
    }
  }

  /** A parameter token holds no delimiter, so dropping it keeps the
      delimiters of the path. */
  lemma ParameterHasNoDelimiters(path: string)
    requires path != [] && path[0] == ':'
    ensures Delimiters(path[SpanFrom(path, 1, IsParamChar)..]) == Delimiters(path)
  {
    var e := SpanFrom(path, 1, IsParamChar);
    assert path == path[..e] + path[e..];
    DelimitersAppend(path[..e], path[e..]);
    assert All(path[..e], IsParamChar) by {
      assert forall k :: 1 <= k < e ==> path[..e][k] == path[k];
    }
    NoDelimiters(path[..e]);
  }

  /** FiberParamsAndWildcardsPattern.ReplaceAllString(path, "param"). */
  function Normalize(path: string): (r: string)
    ensures forall k :: 0 <= k < |r| ==> !IsRouteMarker(r[k])
    ensures Delimiters(r) == Delimiters(path)
    decreases |path|
  {
    if path == [] then []
    else if path[0] == ':' then
      var e := SpanFrom(path, 1, IsParamChar);
      var rest := Normalize(path[e..]);
      ParameterHasNoDelimiters(path);
      DelimitersAppend(Param, rest);
      Param + rest
    else if IsWildcard(path[0]) then
      var rest := Normalize(path[1..]);
      DelimitersAppend(Param, rest);
      Param + rest
    else
      [path[0]] + Normalize(path[1..])
  }

  /** A path without parameters or wildcards is left as it is. */
  lemma {:induction false} NormalizePlain(path: string)
    requires forall k :: 0 <= k < |path| ==> !IsRouteMarker(path[k])
    ensures Normalize(path) == path
    decreases |path|
  {
    if path != [] {
      NormalizePlain(path[1..]);
      assert path == [path[0]] + path[1..];
    }
  }

  /** Normalising twice is normalising once. */
  lemma NormalizeIdempotent(path: string)
    ensures Normalize(Normalize(path)) == Normalize(path)
  {
    NormalizePlain(Normalize(path));
  }

  /** A parameter token never runs past a delimiter. */
  lemma SpanStopsAtDelimiter(a: string, d: char, b: string, i: nat)
    requires IsParamDelimiter(d) && i <= |a|
    ensures SpanFrom(a + [d] + b, i, IsParamChar) == SpanFrom(a, i, IsParamChar)
  {
    var s := a + [d] + b;
    var e := SpanFrom(a, i, IsParamChar);
    assert forall k :: i <= k < e ==> s[k] == a[k];
    assert e < |a| ==> s[e] == a[e];
    assert e == |a| ==> s[e] == d;
    SpanFromIs(s, i, e, IsParamChar);
  }

  /** Where the first token of a non-empty path ends: after the parameter
      a ':' starts, or after the one character otherwise. */
  function TokenEnd(s: string): (e: nat)
    requires s != []
    ensures 1 <= e <= |s|
  {
    if s[0] == ':' then SpanFrom(s, 1, IsParamChar) else 1
  }

  /** What the first token of a non-empty path becomes. */
  function TokenOutput(s: string): string
    requires s != []
  {
    if s[0] == ':' || IsWildcard(s[0]) then Param else [s[0]]
  }

  /** Normalisation goes token by token. */
  lemma NormalizeStep(s: string)
    requires s != []
    ensures Normalize(s) == TokenOutput(s) + Normalize(s[TokenEnd(s)..])
  {
  }

  lemma Regroup(h: string, x: string, d: char, y: string)
    ensures h + (x + [d] + y) == h + x + [d] + y
  {
  }

  /** A first character other than ':' is a token on its own, whatever
      follows it. */
  lemma NormalizeHead(a: string, b: string)
    requires a != [] && a[0] != ':'
    ensures Normalize(a + b) == TokenOutput(a) + Normalize(a[1..] + b)
    ensures Normalize(a) == TokenOutput(a) + Normalize(a[1..])
  {
    var s := a + b;
    assert s[0] == a[0];
    assert s[1..] == a[1..] + b;
    NormalizeStep(s);
    NormalizeStep(a);
  }

  lemma Reassociate(h: string, x: string, y: string)
    ensures h + (x + y) == (h + x) + y
  {
  }

  /** The split of `a + b` carries over from the rest of `a`. */
  lemma NormalizeHeadAppend(a: string, b: string)
    requires a != [] && a[0] != ':'
    requires Normalize(a[1..] + b) == Normalize(a[1..]) + Normalize(b)
    ensures Normalize(a + b) == Normalize(a) + Normalize(b)
  {
    NormalizeHead(a, b);
    Reassociate(TokenOutput(a), Normalize(a[1..]), Normalize(b));
  }

  /** Text without a ':' is normalised one character at a time, so
      whatever follows it is normalised on its own: literal characters
      stay in place next to the "param" a wildcard becomes. */
  lemma {:induction false} NormalizeAppend(a: string, b: string)
    requires ':' !in a
    ensures Normalize(a + b) == Normalize(a) + Normalize(b)
    decreases |a|
  {
    if a == [] {
      assert a + b == b;
    } else {
      assert ':' !in a[1..] by {
        assert a == [a[0]] + a[1..];
      }
      NormalizeAppend(a[1..], b);
      NormalizeHeadAppend(a, b);
    }
  }

  /** A wildcard inside a segment, as in `/file*` or `/a+b`, becomes
      "param" between the literal text around it. */
  lemma NormalizeInnerWildcard(head: string, w: char, tail: string)
    requires forall k :: 0 <= k < |head| ==> !IsRouteMarker(head[k])
    requires IsWildcard(w)
    ensures Normalize(head + ([w] + tail)) == head + (Param + Normalize(tail))
  {
    assert ':' !in head by {
      forall k | 0 <= k < |head| ensures head[k] != ':' {
        assert !IsRouteMarker(head[k]);
      }
    }
    NormalizeAppend(head, [w] + tail);
    NormalizePlain(head);
    NormalizeAppend([w], tail);
    NormalizeWildcard(w);
  }

  /** A parameter after literal text in the same segment, as in `/v:id`,
      becomes "param" after that text. */
  lemma NormalizeTrailingParameter(head: string, name: string)
    requires forall k :: 0 <= k < |head| ==> !IsRouteMarker(head[k])
    requires All(name, IsParamChar)
    ensures Normalize(head + ([':'] + name)) == head + Param
  {
    assert ':' !in head by {
      forall k | 0 <= k < |head| ensures head[k] != ':' {
        assert !IsRouteMarker(head[k]);
      }
    }
    NormalizeAppend(head, [':'] + name);
    NormalizePlain(head);
    NormalizeParameter(name);
  }

  /** Delimiters split the work: the parts between them are normalised on
      their own. */
  lemma {:induction false} NormalizeAround(a: string, d: char, b: string)
    requires IsParamDelimiter(d)
    ensures Normalize(a + [d] + b) == Normalize(a) + [d] + Normalize(b)
    decreases |a|
  {
    var s := a + [d] + b;
    if a == [] {
      assert s == [d] + b;
      assert s[1..] == b;
    } else {
      var e := TokenEnd(a);
      var head := TokenOutput(a);
      assert Normalize(s) == head + Normalize(a[e..] + [d] + b) by {
        assert s[0] == a[0];
        if a[0] == ':' {
          SpanStopsAtDelimiter(a, d, b, 1);
        }
        assert TokenEnd(s) == e && TokenOutput(s) == head;
        NormalizeStep(s);
        assert s[e..] == a[e..] + [d] + b;
      }
      assert Normalize(a) == head + Normalize(a[e..]) by {
        NormalizeStep(a);
      }
      NormalizeAround(a[e..], d, b);
      Regroup(head, Normalize(a[e..]), d, Normalize(b));
    }
  }

  /** A parameter token, `:` followed by anything but a delimiter, becomes
      one "param", whatever stands in it (a trailing `?` included). */
  lemma NormalizeParameter(name: string)
    requires All(name, IsParamChar)
    ensures Normalize([':'] + name) == Param
  {
    var s := [':'] + name;
    assert forall k :: 1 <= k < |s| ==> s[k] == name[k - 1];
    SpanFromIs(s, 1, |s|, IsParamChar);
  }

  /** Each wildcard on its own becomes one "param". */
  lemma NormalizeWildcard(w: char)
    requires IsWildcard(w)
    ensures Normalize([w]) == Param
  {
    assert [w][1..] == [];
  }

  /** Two parameters joined by a delimiter, as in `:param1?-:param2` or
      `:param1?.:param2`, become `param-param` or `param.param`. */
  lemma JoinedParameters(first: string, d: char, second: string)
    requires IsParamDelimiter(d)
    requires All(first, IsParamChar) && All(second, IsParamChar)
    ensures Normalize([':'] + first + [d] + ([':'] + second)) == Param + [d] + Param
  {
    NormalizeParameter(first);
    NormalizeParameter(second);
    NormalizeAround([':'] + first, d, [':'] + second);
  }

  /** Optional parameters on both sides of a delimiter: the routes
      `/inner/wildcard/:param1?-:param2` and
      `/inner/wildcard/:param1?.:param2` become
      `/inner/wildcard/param-param` and `/inner/wildcard/param.param`. */
  lemma NormalizeOptionalParameters(head: string, first: string, d: char, second: string)
    requires forall k :: 0 <= k < |head| ==> !IsRouteMarker(head[k])
    requires IsParamDelimiter(d)
    requires All(first, IsParamChar) && All(second, IsParamChar)
    ensures Normalize(head + "/" + ([':'] + first + [d] + ([':'] + second))) == head + "/" + (Param + [d] + Param)
  {
    JoinedParameters(first, d, second);
    NormalizeAround(head, '/', [':'] + first + [d] + ([':'] + second));
    NormalizePlain(head);
  }

  /** A parameter before a file extension, as in
      `/inner/extension/:name.html`, keeps the extension:
      `/inner/extension/param.html`. */
  lemma NormalizeExtension(head: string, name: string, ext: string)
    requires forall k :: 0 <= k < |head| ==> !IsRouteMarker(head[k])
    requires forall k :: 0 <= k < |ext| ==> !IsRouteMarker(ext[k])
    requires All(name, IsParamChar)
    ensures Normalize(head + "/" + ([':'] + name + "." + ext)) == head + "/" + (Param + "." + ext)
  {
    NormalizeParameter(name);
    NormalizePlain(ext);
    NormalizeAround([':'] + name, '.', ext);
    NormalizeAround(head, '/', [':'] + name + "." + ext);
    NormalizePlain(head);
  }

  /** A trailing wildcard segment, star or plus, becomes "param". */
  lemma NormalizeWildcards(head: string, w: char)
    requires forall k :: 0 <= k < |head| ==> !IsRouteMarker(head[k])
    requires IsWildcard(w)
    ensures Normalize(head + "/" + [w]) == head + "/" + Param
  {
    NormalizePlain(head);
    NormalizeWildcard(w);
    NormalizeAround(head, '/', [w]);
  }
}
