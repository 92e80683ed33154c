/**
 * Reference resolution as section 5.2 of RFC 3986 defines it, for the
 * references a Sydney.com tile carries (no scheme and no authority of their
 * own), against the base `https://www.sydney.com`. It is an independent
 * statement of what `new URL(link, origin).href` computes, against which
 * `Urls.Resolve` is checked.
 */
module ReferenceResolution {
  import opened JsValues
  import opened Urls

  /** The parts of a reference that section 5.2.2 reads when scheme and authority are absent. */
  datatype RefParts = RefParts(path: string, query: Option<string>, fragment: Option<string>)

  /** The base URL's parts: `https://www.sydney.com`, whose path the URL standard normalises to "/". */
  const BaseScheme: string := "https"
  const BaseAuthority: string := "www.sydney.com"
  const BasePath: string := "/"
  const BaseQuery: Option<string> := None

  /** The last position of `c` in `s`, or -1 when there is none. */
  function LastIndexOf(s: string, c: char): (i: int)
    ensures -1 <= i < |s|
    ensures 0 <= i ==> s[i] == c
    ensures forall j :: i < j < |s| ==> s[j] != c
  {
    if |s| == 0 then -1
    else if s[|s| - 1] == c then |s| - 1
    else LastIndexOf(s[..|s| - 1], c)
  }

  /**
   * Splitting a reference as the regular expression of Appendix B does: the
   * fragment follows the first '#', the query the first '?' before it, and
   * the path is what precedes both.
   */
  function SplitReference(r: string): RefParts
  {
    var h := IndexOf(r, '#');
    var body := r[..h];
    var q := IndexOf(body, '?');
    RefParts(body[..q],
             if q < |body| then Some(body[q + 1..]) else None,
             if h < |r| then Some(r[h + 1..]) else None)
  }

  /** The query and fragment components as section 5.3 writes them. */
  function Suffix(query: Option<string>, fragment: Option<string>): string
  {
    OptionalPart('?', query) + OptionalPart('#', fragment)
  }

  /** Section 5.3 without scheme and authority. */
  function Recompose(p: RefParts): string
  {
    p.path + Suffix(p.query, p.fragment)
  }

  /** Section 5.3 for a target that takes the base's scheme and authority. */
  function TargetHref(t: RefParts): string
  {
    BaseScheme + "://" + BaseAuthority + Recompose(t)
  }

  /** Splitting loses nothing: recomposing the parts gives the reference back. */
  lemma SplitRecompose(r: string)
    ensures Recompose(SplitReference(r)) == r
  {
    var h := IndexOf(r, '#');
    var body := r[..h];
    var q := IndexOf(body, '?');
    var query := if q < |body| then Some(body[q + 1..]) else None;
    var fragment := if h < |r| then Some(r[h + 1..]) else None;
    assert SplitReference(r) == RefParts(body[..q], query, fragment);
    assert body[..q] + OptionalPart('?', query) == body by {
      SplitAt(body, q, '?');
    }
    assert body + OptionalPart('#', fragment) == r by {
      SplitAt(r, h, '#');
    }
    ConcatAssoc(body[..q], OptionalPart('?', query), OptionalPart('#', fragment));
  }

  /** `c` followed by the value, or nothing. */
  function OptionalPart(c: char, v: Option<string>): string
  {
    if v.Some? then [c] + v.value else ""
  }

  /** Cutting `s` at a position holding `c` (or at its end) and putting it back together. */
  lemma SplitAt(s: string, i: nat, c: char)
    requires i <= |s| && (i < |s| ==> s[i] == c)
    ensures s == s[..i] + OptionalPart(c, if i < |s| then Some(s[i + 1..]) else None)
  {
    if i < |s| {
      assert s == s[..i] + [s[i]] + s[i + 1..];
    }
  }

  /** The output buffer without its last segment and the "/" before it (section 5.2.4, rule C). */
  function DropLastSegment(output: string): (shorter: string)
    ensures |shorter| <= |output|
  {
    var i := LastIndexOf(output, '/');
    if i < 0 then "" else output[..i]
  }

  /** The length of the first path segment of `input`, with its leading "/" if any (rule E). */
  function FirstSegmentLength(input: string): (k: nat)
    requires |input| > 0
    ensures 1 <= k <= |input|
    ensures k < |input| ==> input[k] == '/'
    ensures forall j :: 0 < j < k ==> input[j] != '/'
  {
    if input[0] == '/' then 1 + IndexOf(input[1..], '/')
    else IndexOf(input, '/')
  }

  /** `remove_dot_segments` of section 5.2.4: rules A to E applied until the input buffer is empty. */
  function RemoveDotSegments(input: string, output: string): string
    decreases |input|
  {
    if input == "" then output
    else if StartsWith(input, "../") then RemoveDotSegments(input[3..], output)
    else if StartsWith(input, "./") then RemoveDotSegments(input[2..], output)
    else if StartsWith(input, "/./") then RemoveDotSegments(input[2..], output)
    else if input == "/." then RemoveDotSegments("/", output)
    else if StartsWith(input, "/../") then RemoveDotSegments(input[3..], DropLastSegment(output))
    else if input == "/.." then RemoveDotSegments("/", DropLastSegment(output))
    else if input == "." || input == ".." then RemoveDotSegments("", output)
    else
      var k := FirstSegmentLength(input);
      RemoveDotSegments(input[k..], output + input[..k])
  }

  /** A path with no segment that starts with '.' passes through unchanged. */
  lemma {:induction false} RemoveDotsKeepsPlainPath(input: string, output: string)
    requires NoDotAfterSlash(input) && (|input| > 0 ==> input[0] != '.')
    ensures RemoveDotSegments(input, output) == output + input
    decreases |input|
  {
    if |input| == 0 {
      assert output + input == output;
    } else {
      var k := FirstSegmentLength(input);
      var rest := input[k..];
      var moved := output + input[..k];
      assert RemoveDotSegments(input, output) == RemoveDotSegments(rest, moved) by {
        OnlyRuleE(input, output);
      }
      assert RemoveDotSegments(rest, moved) == moved + rest by {
        RestStaysPlain(input, k);
        RemoveDotsKeepsPlainPath(rest, moved);
      }
      assert input[..k] + rest == input;
      ConcatAssoc(output, input[..k], rest);
    }
  }

  /** Without a leading dot segment only rule E applies: the first segment moves to the output. */
  lemma OnlyRuleE(input: string, output: string)
    requires |input| > 0 && input[0] != '.'
    requires |input| >= 2 && input[0] == '/' ==> input[1] != '.'
    ensures var k := FirstSegmentLength(input);
            RemoveDotSegments(input, output) == RemoveDotSegments(input[k..], output + input[..k])
  {
    assert !StartsWith(input, "../") && !StartsWith(input, "./");
    assert !StartsWith(input, "/./") && !StartsWith(input, "/../");
    assert input != "/." && input != "/.." && input != "." && input != "..";
  }

  /** What follows the first segment starts with "/" and still has no dot segment. */
  lemma RestStaysPlain(input: string, k: nat)
    requires |input| > 0 && k == FirstSegmentLength(input) && NoDotAfterSlash(input)
    ensures NoDotAfterSlash(input[k..]) && (k < |input| ==> input[k..][0] == '/')
  {
    var rest := input[k..];
    forall i | 0 <= i < |rest| - 1
      ensures !(rest[i] == '/' && rest[i + 1] == '.')
    {
      assert rest[i] == input[k + i] && rest[i + 1] == input[k + i + 1];
    }
  }

  /** Section 5.2.3: the base path up to its last "/", then the reference's path. */
  function Merge(basePath: string, refPath: string): string
  {
    if basePath == "" then "/" + refPath
    else basePath[..LastIndexOf(basePath, '/') + 1] + refPath
  }

  /** Section 5.2.2 for a reference that has neither scheme nor authority. */
  function Transform(r: RefParts): RefParts
  {
    if r.path == "" then RefParts(BasePath, if r.query.Some? then r.query else BaseQuery, r.fragment)
    else if r.path[0] == '/' then RefParts(RemoveDotSegments(r.path, ""), r.query, r.fragment)
    else RefParts(RemoveDotSegments(Merge(BasePath, r.path), ""), r.query, r.fragment)
  }

  /** The base written out is the origin links are resolved against. */
  lemma BaseIsSiteOrigin()
    ensures BaseScheme + "://" + BaseAuthority == SiteOrigin
  {
  }

  /** The path of a plain reference keeps the plain reference's properties. */
  lemma PlainPath(r: string)
    requires PlainReference(r)
    ensures var p := SplitReference(r).path;
            && NoDotAfterSlash(p)
            && (|p| > 0 ==> p[0] == r[0])
            && (|p| == 0 ==> r[0] == '?' || r[0] == '#')
            && r == p + Suffix(SplitReference(r).query, SplitReference(r).fragment)
  {
    var parts := SplitReference(r);
    var p := parts.path;
    SplitRecompose(r);
    assert r[..|p|] == p;
    forall i | 0 <= i < |p| - 1
      ensures !(p[i] == '/' && p[i + 1] == '.')
    {
      assert p[i] == r[i] && p[i + 1] == r[i + 1];
    }
  }

  /**
   * `Resolve` agrees with section 5.2 of RFC 3986 on every plain reference:
   * the link is the base's scheme and authority followed by the target the
   * reference transform computes.
   */
  lemma ResolveFollowsRfc3986(r: string, other: string -> Option<string>)
    requires PlainReference(r)
    ensures Resolve(r, other) == Some(TargetHref(Transform(SplitReference(r))))
  {
    var parts := SplitReference(r);
    var target := Recompose(Transform(parts));
    PlainPath(r);
    assert Recompose(parts) == r;
    assert target == if r[0] == '/' then r else "/" + r by {
      if parts.path == "" {
        EmptyPathTarget(parts);
      } else if parts.path[0] == '/' {
        AbsolutePathTarget(parts);
      } else {
        RelativePathTarget(parts);
      }
    }
    assert TargetHref(Transform(parts)) == SiteOrigin + target by {
      BaseIsSiteOrigin();
    }
    if r[0] != '/' {
      assert SiteOrigin + ("/" + r) == SiteOrigin + "/" + r;
    }
  }

  /** A reference of a query or fragment only keeps the base path "/". */
  lemma EmptyPathTarget(parts: RefParts)
    requires parts.path == ""
    ensures Recompose(Transform(parts)) == "/" + Recompose(parts)
  {
    assert Recompose(parts) == Suffix(parts.query, parts.fragment);
  }

  /** A path-absolute reference without dot segments is its own target. */
  lemma AbsolutePathTarget(parts: RefParts)
    requires parts.path != "" && parts.path[0] == '/' && NoDotAfterSlash(parts.path)
    requires |parts.path| >= 2 ==> parts.path[1] != '.'
    ensures Recompose(Transform(parts)) == Recompose(parts)
  {
    RemoveDotsKeepsPlainPath(parts.path, "");
    assert "" + parts.path == parts.path;
  }

  /** A relative path without dot segments is merged under the base path "/". */
  lemma RelativePathTarget(parts: RefParts)
    requires parts.path != "" && parts.path[0] != '/' && parts.path[0] != '.' && NoDotAfterSlash(parts.path)
    ensures Recompose(Transform(parts)) == "/" + Recompose(parts)
  {
    var p := parts.path;
    var tail := Suffix(parts.query, parts.fragment);
    assert Transform(parts) == RefParts(RemoveDotSegments(Merge(BasePath, p), ""), parts.query, parts.fragment);
    MergeUnderRoot(p);
    RootedPlainPath(p);
    ConcatAssoc("/", p, tail);
  }

  /** Merging under the base path "/" puts a "/" in front. */
  lemma MergeUnderRoot(p: string)
    ensures Merge(BasePath, p) == "/" + p
  {
    assert LastIndexOf(BasePath, '/') == 0;
  }

  /** A relative path without dot segments, put under "/", keeps its segments. */
  lemma RootedPlainPath(p: string)
    requires p != "" && p[0] != '.' && NoDotAfterSlash(p)
    ensures RemoveDotSegments("/" + p, "") == "/" + p
  {
    SlashBeforePlain(p);
    RemoveDotsKeepsPlainPath("/" + p, "");
    assert "" + ("/" + p) == "/" + p;
  }

  /** A "/" in front of a path that does not start with '.' adds no dot segment. */
  lemma SlashBeforePlain(p: string)
    requires NoDotAfterSlash(p) && (|p| > 0 ==> p[0] != '.')
    ensures NoDotAfterSlash("/" + p)
  {
    var sp := "/" + p;
    forall i | 0 <= i < |sp| - 1
      ensures !(sp[i] == '/' && sp[i + 1] == '.')
    {
      if i > 0 {
        assert sp[i] == p[i - 1] && sp[i + 1] == p[i];
      }
    }
  }
}
