// `convertUrlPatternToFilter` of the background worker: a user-friendly
// URL pattern becomes the `urlFilter` of a declarativeNetRequest rule.
module UrlFilter {
  import opened Strings

  // `filter.indexOf('://') + 3`: the index just after the scheme
  // separator, or 2 when the pattern has none.
  function ProtocolEnd(f: string): nat
  {
    IndexOfFrom(f, "://", 0) + 3
  }

  // The pattern holds a `/` at or after the end of the scheme separator.
  predicate HasPath(f: string)
  {
    IndexOfFrom(f, "/", ProtocolEnd(f)) != -1
  }

  // The text after the last `/`.
  function LastSegment(f: string): string
  {
    f[LastIndexOf(f, '/') + 1..]
  }

  function ConvertUrlPatternToFilter(pattern: string): string
  {
    FilterOf(Trim(pattern))
  }

  // The filter is the trimmed pattern, possibly followed by `*` or `/*`.
  lemma FilterExtendsPattern(pattern: string)
    ensures var f := Trim(pattern); var r := ConvertUrlPatternToFilter(pattern);
      r == f || r == f + "*" || r == f + "/*"
  {
    FilterOfExtends(Trim(pattern));
  }

  lemma FilterOfExtends(f: string)
    ensures var r := FilterOf(f); r == f || r == f + "*" || r == f + "/*"
  {
  }

  // The filters of a website's URL patterns, in order.
  function Filters(urls: seq<string>): (fs: seq<string>)
  {
    if urls == [] then [] else Filters(urls[..|urls| - 1]) + [ConvertUrlPatternToFilter(urls[|urls| - 1])]
  }

  lemma {:induction false} FiltersLength(urls: seq<string>)
    ensures |Filters(urls)| == |urls|
  {
    if urls != [] {
      FiltersLength(urls[..|urls| - 1]);
    }
  }

  // Position `j` holds the filter of the `j`th pattern.
  lemma {:induction false} FiltersAt(urls: seq<string>, j: nat)
    requires j < |urls|
    ensures |Filters(urls)| == |urls|
    ensures Filters(urls)[j] == ConvertUrlPatternToFilter(urls[j])
    decreases |urls|
  {
    FiltersLength(urls);
    if j < |urls| - 1 {
      FiltersAt(urls[..|urls| - 1], j);
    }
  }

  // Everything `convertUrlPatternToFilter` does after `trim()`.
  function FilterOf(f: string): string
  {
    if Contains(f, "://*.") then
      // subdomain wildcard
      if !EndsWith(f, "/*") && !EndsWith(f, "*") then
        if !HasPath(f) then f + "/*"
        else if !EndsWith(f, "/") && !EndsWith(f, "*") then f + "/*"
        else f
      else f
    else if !HasPath(f) then f + "/*"
    else if EndsWith(f, "/") then f + "*"
    else if !EndsWith(f, "*") then
      if !Contains(LastSegment(f), ".") then f + "/*" else f
    else f
  }

  // A subdomain pattern is kept when it ends in `*` or `/` and gets `/*`
  // otherwise.
  lemma SubdomainPattern(pattern: string)
    requires Contains(Trim(pattern), "://*.")
    ensures var f := Trim(pattern);
      ConvertUrlPatternToFilter(pattern) == if EndsWith(f, "*") || EndsWith(f, "/") then f else f + "/*"
  {
    var f := Trim(pattern);
    var i := IndexOfFrom(f, "://*.", 0);
    assert IsAt(f, "://*.", i);
    assert f[i..i + 3] == "://" by { assert f[i..i + 3] == f[i..i + 5][..3]; }
    var j := IndexOfFrom(f, "://", 0);
    assert j != -1 && j <= i by { assert IsAt(f, "://", i); IndexOfFromFirst(f, "://", 0); }
    if EndsWith(f, "/") && !EndsWith(f, "*") {
      assert IsAt(f, "/", |f| - 1);
      IndexOfFromFirst(f, "/", ProtocolEnd(f));
      assert |f| - 1 >= ProtocolEnd(f);
    }
  }

  // A pattern with no `/` after the scheme gets `/*`; this holds even when
  // it already ends in `*`, as in `https://localhost:*`.
  lemma HostOnlyPattern(pattern: string)
    requires var f := Trim(pattern); !Contains(f, "://*.") && !HasPath(f)
    ensures ConvertUrlPatternToFilter(pattern) == Trim(pattern) + "/*"
  {
  }

  // An ordinary pattern with a path: a trailing `/` gets `*`, a trailing
  // `*` is kept, and otherwise the last segment decides: with a `.` it is
  // taken for a file and kept, without one it gets `/*`.
  lemma PathPattern(pattern: string)
    requires var f := Trim(pattern); !Contains(f, "://*.") && HasPath(f)
    ensures var f := Trim(pattern);
      ConvertUrlPatternToFilter(pattern) ==
        if EndsWith(f, "/") then f + "*"
        else if EndsWith(f, "*") then f
        else if Contains(LastSegment(f), ".") then f
        else f + "/*"
  {
  }

  // The last segment of a pattern with a path holds no `/`.
  lemma LastSegmentHasNoSlash(f: string)
    requires HasPath(f)
    ensures forall k :: 0 <= k < |LastSegment(f)| ==> LastSegment(f)[k] != '/'
    ensures LastIndexOf(f, '/') >= 0
  {
    var p := IndexOfFrom(f, "/", ProtocolEnd(f));
    assert f[p..p + 1] == "/";
    assert f[p] == '/';
  }

  // A filter with a path that ends in `*` is its own filter.
  lemma StarWithPathIsKept(g: string)
    requires HasPath(g) && EndsWith(g, "*")
    ensures FilterOf(g) == g
  {
    assert g[|g| - 1] == '*';
    assert !EndsWith(g, "/");
  }

  // A filter is already trimmed.
  lemma FilterIsTrimmed(pattern: string)
    ensures Trim(ConvertUrlPatternToFilter(pattern)) == ConvertUrlPatternToFilter(pattern)
  {
    var f := Trim(pattern);
    FilterKeepsEnds(f);
    TrimOfTrimmed(FilterOf(f));
  }

  // Appending `*` or `/*` to a string without whitespace at its ends keeps
  // it so.
  lemma FilterKeepsEnds(f: string)
    requires f == [] || (!IsSpace(f[0]) && !IsSpace(f[|f| - 1]))
    ensures var r := FilterOf(f); r == [] || (!IsSpace(r[0]) && !IsSpace(r[|r| - 1]))
  {
    FilterOfExtends(f);
  }

  // Feeding a filter back in leaves it unchanged, for every pattern that
  // has a scheme separator.
  lemma FilterIsFixedPoint(pattern: string)
    requires Contains(Trim(pattern), "://")
    ensures ConvertUrlPatternToFilter(ConvertUrlPatternToFilter(pattern)) == ConvertUrlPatternToFilter(pattern)
  {
    var f := Trim(pattern);
    var r := ConvertUrlPatternToFilter(pattern);
    FilterExtendsPattern(pattern);
    FilterIsTrimmed(pattern);
    assert ConvertUrlPatternToFilter(r) == FilterOf(r);
    if r == f + "*" {
      assert HasPath(f);
      HasPathKept(f, "*");
      StarWithPathIsKept(r);
    } else if r == f + "/*" {
      HasPathKept(f, "/*");
      StarWithPathIsKept(r);
    }
  }

  // Appending `/*`, or `*` to a pattern that already has a path, keeps the
  // scheme separator where it was and leaves a path after it.
  lemma HasPathKept(f: string, suffix: string)
    requires Contains(f, "://")
    requires suffix == "/*" || (suffix == "*" && HasPath(f))
    ensures ProtocolEnd(f + suffix) == ProtocolEnd(f)
    ensures HasPath(f + suffix)
  {
    var r := f + suffix;
    IndexOfFromAppend(f, suffix, "://", 0);
    if suffix == "/*" {
      assert IsAt(r, "/", |f|);
      IndexOfFromFirst(r, "/", ProtocolEnd(r));
    } else {
      IndexOfFromAppend(f, suffix, "/", ProtocolEnd(f));
    }
  }
}
