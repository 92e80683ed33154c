/**
 * Links on Sydney.com tiles: making a relative link absolute against
 * `https://www.sydney.com` (the WHATWG `new URL(ref, base).href`, which
 * implements reference resolution as in section 5.2 of RFC 3986), and the
 * last path segment `link.split('/').pop()` used as an event identifier.
 */
module Urls {
  import opened JsValues

  /** The origin Sydney.com links are resolved against; its path is empty. */
  const SiteOrigin: string := "https://www.sydney.com"

  /** Characters the URL parser copies unchanged into path, query and fragment. */
  predicate PlainChar(c: char)
  {
    || 'a' <= c <= 'z' || 'A' <= c <= 'Z' || '0' <= c <= '9'
    || c == '-' || c == '.' || c == '_' || c == '~' || c == '/'
    || c == '?' || c == '=' || c == '&' || c == '#'
  }

  /**
   * A reference whose resolution involves no scheme or authority of its own,
   * no percent-encoding and no dot-segment removal: a path-absolute or
   * relative path, or a query or fragment, of plain characters, in which no
   * segment starts with '.'.
   */
  predicate PlainReference(r: string)
  {
    && |r| > 0
    && (forall i :: 0 <= i < |r| ==> PlainChar(r[i]))
    && r[0] != '.'
    && !StartsWith(r, "//")
    && NoDotAfterSlash(r)
  }

  /** No segment after a "/" starts with '.'. */
  predicate NoDotAfterSlash(s: string)
  {
    forall i :: 0 <= i < |s| - 1 ==> !(s[i] == '/' && s[i + 1] == '.')
  }

  /**
   * `new URL(r, "https://www.sydney.com").href`. A plain reference is
   * appended to the origin: a path-absolute one as it stands, any other
   * after the origin's own "/" path. Every other reference (with a scheme,
   * a network path, dot segments, characters to encode) is resolved by
   * `other`, whose `None` stands for the `TypeError` the constructor throws.
   */
  function Resolve(r: string, other: string -> Option<string>): (href: Option<string>)
    ensures PlainReference(r) ==> href.Some? && StartsWith(href.value, SiteOrigin + "/")
    ensures PlainReference(r) && r[0] == '/' ==> href == Some(SiteOrigin + r)
    ensures PlainReference(r) && r[0] != '/' ==> href == Some(SiteOrigin + "/" + r)
    ensures !PlainReference(r) ==> href == other(r)
  {
    if PlainReference(r) then Some(if r[0] == '/' then SiteOrigin + r else SiteOrigin + "/" + r)
    else other(r)
  }

  /**
   * `if (link && !link.startsWith('http')) link = new URL(link, origin).href`:
   * a link that is empty, missing or already starts with "http" is kept.
   */
  function Absolutize(link: Option<string>, other: string -> Option<string>): (r: Completion<Option<string>>)
    ensures !Truthy(link) || StartsWith(link.value, "http") ==> r == Normal(link)
    ensures Truthy(link) && PlainReference(link.value) ==>
              r.Normal? && Truthy(r.value) && StartsWith(r.value.value, "http")
    ensures r.Thrown? ==> Truthy(link) && other(link.value).None?
    ensures r.Thrown? <==> Truthy(link) && !StartsWith(link.value, "http") && Resolve(link.value, other).None?
    ensures Truthy(link) && !StartsWith(link.value, "http") && Resolve(link.value, other).Some? ==>
              r == Normal(Resolve(link.value, other))
  {
    if Truthy(link) && !StartsWith(link.value, "http") then
      match Resolve(link.value, other)
      case Some(href) => Normal(Some(href))
      case None => Thrown
    else Normal(link)
  }

  /** A link Absolutize settles without consulting the general URL parser. */
  predicate SettledLocally(link: Option<string>)
  {
    !Truthy(link) || StartsWith(link.value, "http") || PlainReference(link.value)
  }

  /** Making a link absolute twice is the same as doing it once. */
  lemma AbsolutizeIdempotent(link: Option<string>, other: string -> Option<string>)
    requires SettledLocally(link)
    ensures Absolutize(link, other).Normal?
    ensures Absolutize(Absolutize(link, other).value, other) == Absolutize(link, other)
  {
    if Truthy(link) && !StartsWith(link.value, "http") {
      var href := Absolutize(link, other).value.value;
      assert StartsWith(href, SiteOrigin + "/");
      assert href[..4] == (SiteOrigin + "/")[..4];
    }
  }

  /** Every href under the site's origin starts with "http". */
  lemma UnderOriginIsHttp(s: string)
    requires StartsWith(s, SiteOrigin)
    ensures StartsWith(s, "http")
  {
    assert s[..4] == s[..|SiteOrigin|][..4];
  }

  /**
   * What `new URL(...).href` gives is an absolute URL: it has a scheme, and
   * parsing it again gives it back.
   */
  ghost predicate HrefsReparse(other: string -> Option<string>)
  {
    forall s :: other(s).Some? ==> ':' in other(s).value && other(other(s).value) == other(s)
  }

  /**
   * With a URL parser whose hrefs parse back to themselves, making any link
   * absolute a second time changes nothing, whichever branch settled it.
   */
  lemma AbsolutizeStable(link: Option<string>, other: string -> Option<string>)
    requires HrefsReparse(other)
    requires Absolutize(link, other).Normal?
    ensures Absolutize(Absolutize(link, other).value, other) == Absolutize(link, other)
  {
    if Truthy(link) && !StartsWith(link.value, "http") {
      if PlainReference(link.value) {
        AbsolutizeIdempotent(link, other);
      } else {
        var href := other(link.value).value;
        assert !PlainReference(href) by {
          var i :| 0 <= i < |href| && href[i] == ':';
          assert !PlainChar(href[i]);
        }
        assert Resolve(href, other) == Some(href);
      }
    }
  }

  /** `s.split('/').pop()`: the part of `s` after its last '/', all of `s` when it has none. */
  function LastSegment(s: string): (seg: string)
    ensures |seg| <= |s| && seg == s[|s| - |seg|..]
    ensures forall i :: 0 <= i < |seg| ==> seg[i] != '/'
    ensures |seg| < |s| ==> s[|s| - |seg| - 1] == '/'
  {
    if |s| == 0 || s[|s| - 1] == '/' then ""
    else LastSegment(s[..|s| - 1]) + [s[|s| - 1]]
  }

  lemma {:induction false} LastSegmentAfterSlash(a: string, b: string)
    ensures LastSegment(a + "/" + b) == LastSegment(b)
  {
    if |b| > 0 && b[|b| - 1] != '/' {
      assert (a + "/" + b)[..|a + "/" + b| - 1] == a + "/" + b[..|b| - 1];
      LastSegmentAfterSlash(a, b[..|b| - 1]);
      assert LastSegment(b) == LastSegment(b[..|b| - 1]) + [b[|b| - 1]];
    }
  }

  /**
   * The identifier taken from a plain link is the same whether the page
   * links relatively or absolutely.
   */
  lemma {:induction false} LastSegmentOfResolved(r: string, other: string -> Option<string>)
    requires PlainReference(r)
    ensures LastSegment(Resolve(r, other).value) == LastSegment(r)
  {
    LastSegmentAfterBase(SiteOrigin, r);
  }

  /** A plain link, once made absolute, is a link with the same last segment. */
  lemma {:induction false} AbsolutizeKeepsSegment(link: string, other: string -> Option<string>)
    requires PlainReference(link)
    ensures Absolutize(Some(link), other).Normal?
    ensures Truthy(Absolutize(Some(link), other).value)
    ensures LastSegment(Absolutize(Some(link), other).value.value) == LastSegment(link)
  {
    if !StartsWith(link, "http") {
      LastSegmentOfResolved(link, other);
    }
  }

  /** Appending a reference to a base keeps the reference's last segment. */
  lemma {:induction false} LastSegmentAfterBase(base: string, r: string)
    requires |r| > 0
    ensures r[0] == '/' ==> LastSegment(base + r) == LastSegment(r)
    ensures LastSegment(base + "/" + r) == LastSegment(r)
  {
    LastSegmentAfterSlash(base, r);
    if r[0] == '/' {
      var tail := r[1..];
      assert r == "/" + tail;
      LastSegmentAfterLeadingSlash(base, tail);
      LastSegmentDropsLeadingSlash(tail);
    }
  }

  lemma {:induction false} LastSegmentAfterLeadingSlash(base: string, tail: string)
    ensures LastSegment(base + ("/" + tail)) == LastSegment(tail)
  {
    assert base + ("/" + tail) == base + "/" + tail;
    LastSegmentAfterSlash(base, tail);
  }

  lemma {:induction false} LastSegmentDropsLeadingSlash(tail: string)
    ensures LastSegment("/" + tail) == LastSegment(tail)
  {
    LastSegmentAfterLeadingSlash("", tail);
    assert "" + ("/" + tail) == "/" + tail;
  }

  /** The worked example: `/events/42` becomes `https://www.sydney.com/events/42`. */
  lemma EventLinkExample(other: string -> Option<string>)
    ensures Absolutize(Some("/events/42"), other) == Normal(Some("https://www.sydney.com/events/42"))
  {
    var r := "/events/42";
    assert forall i :: 0 <= i < |r| ==> PlainChar(r[i]);
    assert r[..2] != "//" by { assert r[1] == 'e'; }
    assert r[..4] != "http" by { assert r[0] == '/'; }
    assert PlainReference(r);
    assert SiteOrigin + r == "https://www.sydney.com/events/42";
  }

  /** A link whose last '/' is followed by `b` is identified by exactly `b`. */
  lemma {:induction false} SegmentAfterLastSlash(a: string, b: string)
    requires forall i :: 0 <= i < |b| ==> b[i] != '/'
    ensures LastSegment(a + "/" + b) == b
  {
    LastSegmentAfterSlash(a, b);
    SlashFreeSegment(b);
  }

  lemma {:induction false} SlashFreeSegment(b: string)
    requires forall i :: 0 <= i < |b| ==> b[i] != '/'
    ensures LastSegment(b) == b
  {
    if |b| > 0 {
      SlashFreeSegment(b[..|b| - 1]);
    }
  }
}
