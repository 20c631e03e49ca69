/** The isolated-world content script: it picks the user agent a website's
    rules set, derives `appVersion` and `platform` from it, and builds the
    `navigator.userAgentData` replacement the page sees. URL matching is a
    parameter. */
module Navigator {
  import opened Wrappers
  import opened Strings
  import opened Config

  // ------------------------------------------------------------------
  // `createUserAgentData`.

  datatype Brand = Brand(brand: string, version: string)

  const NotABrand: Brand := Brand("Not/A)Brand", "8")

  /** The alternatives of the `mobile` test, lower-cased: the test ignores
      ASCII case, so it is a search in the lower-cased user agent. */
  const MobileTokens: seq<string> := ["android", "webos", "iphone", "ipad", "ipod", "blackberry", "iemobile", "opera mini"]

  /** The `j`th alternative occurs in the lower-cased user agent. */
  predicate TokenHit(lower: string, j: nat)
    requires j < |MobileTokens|
  {
    Contains(lower, MobileTokens[j])
  }

  predicate IsMobile(ua: string)
  {
    exists j :: 0 <= j < |MobileTokens| && TokenHit(ToLower(ua), j)
  }

  /** `platform` of the user-agent data: the first of the tests that hits. */
  function DataPlatform(ua: string): (p: string)
    ensures Contains(ua, "Windows NT") ==> p == "Windows"
    ensures !Contains(ua, "Windows NT") && (Contains(ua, "Macintosh") || Contains(ua, "Mac OS")) ==> p == "macOS"
    ensures p == "Linux" <==>
      !Contains(ua, "Windows NT") && !Contains(ua, "Macintosh") && !Contains(ua, "Mac OS") && Contains(ua, "Linux")
    ensures p in {"Windows", "macOS", "Linux", "Unknown"}
  {
    if Contains(ua, "Windows NT") then "Windows"
    else if Contains(ua, "Macintosh") || Contains(ua, "Mac OS") then "macOS"
    else if Contains(ua, "Linux") then "Linux"
    else "Unknown"
  }

  /** `[\d.]`. */
  predicate IsVersionChar(c: char)
  {
    '0' <= c <= '9' || c == '.'
  }

  /** The greedy `[\d.]+` run at the start of `s`. */
  function VersionRun(s: string): (r: string)
    ensures r <= s
    ensures forall k :: 0 <= k < |r| ==> IsVersionChar(r[k])
    ensures |r| < |s| ==> !IsVersionChar(s[|r|])
  {
    if s != [] && IsVersionChar(s[0]) then [s[0]] + VersionRun(s[1..]) else []
  }

  /** `v.split('.')[0]`: the text before the first `.`. */
  function FirstField(v: string): (r: string)
    ensures r <= v
    ensures forall k :: 0 <= k < |r| ==> r[k] != '.'
    ensures |r| < |v| ==> v[|r|] == '.'
  {
    if v != [] && v[0] != '.' then [v[0]] + FirstField(v[1..]) else []
  }

  /** Where `tag` followed by a version character first occurs at or after
      `from`: the leftmost match of `tag([\d.]+)`. */
  function MatchAt(ua: string, tag: string, from: nat): (r: Option<nat>)
    ensures r.Some? ==> from <= r.value && IsAt(ua, tag, r.value) && r.value + |tag| < |ua| &&
                        IsVersionChar(ua[r.value + |tag|])
    ensures forall i: nat :: from <= i && (r.Some? ==> i < r.value) ==>
              !(IsAt(ua, tag, i) && i + |tag| < |ua| && IsVersionChar(ua[i + |tag|]))
    decreases |ua| - from
  {
    if from + |tag| >= |ua| then None
    else if IsAt(ua, tag, from) && IsVersionChar(ua[from + |tag|]) then Some(from)
    else MatchAt(ua, tag, from + 1)
  }

  /** The major version `ua.match(/<tag>([\d.]+)/)` yields, if it matches. */
  function MajorVersion(ua: string, tag: string): Option<string>
  {
    match MatchAt(ua, tag, 0)
    case None => None
    case Some(i) => Some(FirstField(VersionRun(ua[i + |tag|..])))
  }

  function ChromeVersion(ua: string): Option<string> { MajorVersion(ua, "Chrome/") }
  function EdgeVersion(ua: string): Option<string> { MajorVersion(ua, "Edg/") }

  /** A major version holds digits only. */
  lemma MajorVersionDigits(ua: string, tag: string)
    ensures MajorVersion(ua, tag).Some? ==>
      forall k :: 0 <= k < |MajorVersion(ua, tag).value| ==> '0' <= MajorVersion(ua, tag).value[k] <= '9'
  {
    match MatchAt(ua, tag, 0)
    case None =>
    case Some(i) =>
      var run := VersionRun(ua[i + |tag|..]);
      var v := FirstField(run);
      assert forall k :: 0 <= k < |v| ==> v[k] == run[k];
  }

  datatype UserAgentData = UserAgentData(brands: seq<Brand>, mobile: bool, platform: string)

  /** `createUserAgentData(userAgent)`: the brand list starts with the
      placeholder brand, then `Chromium` and `Google Chrome` with the
      Chrome major version, then `Microsoft Edge` with the Edge one. */
  method CreateUserAgentData(ua: string) returns (d: UserAgentData)
    ensures d.mobile == IsMobile(ua) && d.platform == DataPlatform(ua)
    ensures 1 <= |d.brands| <= 4 && d.brands[0] == NotABrand
    ensures ChromeVersion(ua).Some? ==>
      |d.brands| >= 3 &&
      d.brands[1] == Brand("Chromium", ChromeVersion(ua).value) &&
      d.brands[2] == Brand("Google Chrome", ChromeVersion(ua).value)
    ensures EdgeVersion(ua).Some? ==> d.brands[|d.brands| - 1] == Brand("Microsoft Edge", EdgeVersion(ua).value)
    ensures |d.brands| == 1 + (if ChromeVersion(ua).Some? then 2 else 0) + (if EdgeVersion(ua).Some? then 1 else 0)
  {
    var mobile := IsMobileTest(ua);
    var platform := DataPlatform(ua);
    var brands := [NotABrand];
    var chrome := ChromeVersion(ua);
    if chrome.Some? {
      brands := brands + [Brand("Chromium", chrome.value), Brand("Google Chrome", chrome.value)];
    }
    var edge := EdgeVersion(ua);
    if edge.Some? {
      brands := brands + [Brand("Microsoft Edge", edge.value)];
    }
    d := UserAgentData(brands, mobile, platform);
  }

  /** The `mobile` regular expression, alternative by alternative. */
  method IsMobileTest(ua: string) returns (m: bool)
    ensures m == IsMobile(ua)
  {
    var lower := ToLower(ua);
    var k := 0;
    m := false;
    while k < |MobileTokens| && !m
      invariant 0 <= k <= |MobileTokens|
      invariant m == exists j :: 0 <= j < k && TokenHit(lower, j)
    {
      m := TokenHit(lower, k);
      k := k + 1;
    }
  }

  // ------------------------------------------------------------------
  // `getHighEntropyValues(hints)`.

  const ArchitectureHint: string := "architecture"
  const BitnessHint: string := "bitness"
  const ModelHint: string := "model"
  const PlatformVersionHint: string := "platformVersion"
  const FullVersionHint: string := "uaFullVersion"
  const FullVersionListHint: string := "fullVersionList"

  const HintsError: string := "Failed to execute 'getHighEntropyValues' on 'NavigatorUAData'"

  /** The `hints` argument: an array, or anything else (including absent). */
  datatype Hints = NotAnArray | HintList(names: seq<string>)

  datatype HighEntropyValues = HighEntropyValues(
    brands: seq<Brand>,
    mobile: bool,
    platform: string,
    architecture: Option<string>,
    bitness: Option<string>,
    model: Option<string>,
    platformVersion: Option<string>,
    uaFullVersion: Option<string>,
    fullVersionList: Option<seq<Brand>>)

  /** `this.brands[1]?.version + '.0.0.0' || '139.0.0.0'` as written: with
      fewer than two brands the sum is the string `"undefined.0.0.0"`,
      which is truthy, so the fallback is never taken. */
  function FullVersionAsWritten(brands: seq<Brand>): string
  {
    (if |brands| > 1 then brands[1].version else "undefined") + ".0.0.0"
  }

  /** The full version the expression evidently means: the second brand's
      version followed by `.0.0.0`, or `139.0.0.0` when there is none. */
  function FullVersion(brands: seq<Brand>): (r: string)
    ensures |brands| > 1 ==> r == brands[1].version + ".0.0.0"
    ensures |brands| <= 1 ==> r == "139.0.0.0"
    ensures EndsWith(r, ".0.0.0")
  {
    if |brands| > 1 then brands[1].version + ".0.0.0" else "139.0.0.0"
  }

  /** For a user agent without a Chrome or Edge token the expression as
      written reports the literal `undefined` as the major version. */
  lemma FullVersionAsWrittenUndefined()
    ensures FullVersionAsWritten([NotABrand]) == "undefined.0.0.0"
    ensures FullVersion([NotABrand]) == "139.0.0.0"
    ensures FullVersionAsWritten([NotABrand]) != FullVersion([NotABrand])
  {
  }

  /** Both agree whenever there is a second brand. */
  lemma FullVersionAgrees(brands: seq<Brand>)
    requires |brands| > 1
    ensures FullVersionAsWritten(brands) == FullVersion(brands)
  {
  }

  /** The full version of the data built for a Chrome user agent carries
      its major version. */
  lemma FullVersionOfChrome(d: UserAgentData, ua: string)
    requires ChromeVersion(ua).Some? && |d.brands| >= 3
    requires d.brands[1] == Brand("Chromium", ChromeVersion(ua).value)
    ensures FullVersion(d.brands) == ChromeVersion(ua).value + ".0.0.0"
  {
  }

  /** `getHighEntropyValues`: rejects a non-array; otherwise the low-entropy
      values plus exactly the named extra fields. */
  method GetHighEntropyValues(d: UserAgentData, hints: Hints) returns (r: Result<HighEntropyValues>)
    ensures hints.NotAnArray? <==> r.Err?
    ensures r.Ok? ==>
      var v := r.value; var h := hints.names;
      && v.brands == d.brands && v.mobile == d.mobile && v.platform == d.platform
      && v.architecture == (if ArchitectureHint in h then Some("x86") else None)
      && v.bitness == (if BitnessHint in h then Some("64") else None)
      && v.model == (if ModelHint in h then Some("") else None)
      && v.platformVersion == (if PlatformVersionHint in h then Some("10.0.0") else None)
      && v.uaFullVersion == (if FullVersionHint in h then Some(FullVersion(d.brands)) else None)
      && (FullVersionHint in h && |d.brands| > 1 ==> v.uaFullVersion == Some(FullVersionAsWritten(d.brands)))
      && v.fullVersionList == (if FullVersionListHint in h then Some(d.brands) else None)
  {
    if hints.NotAnArray? {
      return Err(HintsError);
    }
    var h := hints.names;
    var architecture: Option<string> := None;
    if ArchitectureHint in h {
      architecture := Some("x86");
    }
    var bitness: Option<string> := None;
    if BitnessHint in h {
      bitness := Some("64");
    }
    var model: Option<string> := None;
    if ModelHint in h {
      model := Some("");
    }
    var platformVersion: Option<string> := None;
    if PlatformVersionHint in h {
      platformVersion := Some("10.0.0");
    }
    var uaFullVersion: Option<string> := None;
    if FullVersionHint in h {
      uaFullVersion := Some(FullVersion(d.brands));
    }
    var fullVersionList: Option<seq<Brand>> := None;
    if FullVersionListHint in h {
      fullVersionList := Some(d.brands);
    }
    var v := HighEntropyValues(d.brands, d.mobile, d.platform,
                               architecture, bitness, model, platformVersion, uaFullVersion, fullVersionList);
    return Ok(v);
  }

  // ------------------------------------------------------------------
  // `checkAndApplyUserAgent`.

  /** `h.name.toLowerCase() === 'user-agent' && h.operation === 'set' && h.value`. */
  predicate SetsUserAgent(h: Header)
  {
    ToLower(h.name) == "user-agent" && h.operation == "set" && h.value != ""
  }

  /** `rule.headers.find(...)` for the user-agent header. */
  function UserAgentHeader(hs: seq<Header>): (r: Option<Header>)
    ensures r.None? <==> forall k :: 0 <= k < |hs| ==> !SetsUserAgent(hs[k])
    ensures r.Some? ==> SetsUserAgent(r.value) && r.value in hs
  {
    if hs == [] then None
    else if SetsUserAgent(hs[0]) then Some(hs[0])
    else
      assert forall k :: 1 <= k < |hs| ==> hs[k] == hs[1..][k - 1];
      UserAgentHeader(hs[1..])
  }

  /** The user agent one `enabledRules` id yields: the value of the
      user-agent header of the enabled rule it resolves to. */
  function IdUserAgent(rules: seq<Rule>, id: string): (r: Option<string>)
    ensures r.Some? ==> r.value != ""
  {
    match FindEnabledRule(rules, id)
    case None => None
    case Some(rule) =>
      match UserAgentHeader(rule.headers)
      case None => None
      case Some(h) => Some(h.value)
  }

  /** The first `Some` among `f(x)` for `x` in `xs`, in order: the
      search with `break` that both loops of `checkAndApplyUserAgent` do. */
  function FirstSome<T>(xs: seq<T>, f: T -> Option<string>): Option<string>
  {
    if xs == [] then None
    else if f(xs[0]).Some? then f(xs[0])
    else FirstSome(xs[1..], f)
  }

  /** `FirstSome` is `None` exactly when every candidate is, and otherwise
      the value of the first candidate that is not. */
  lemma {:induction false} FirstSomeIsFirst<T>(xs: seq<T>, f: T -> Option<string>)
    ensures FirstSome(xs, f).None? <==> forall k :: 0 <= k < |xs| ==> f(xs[k]).None?
    ensures FirstSome(xs, f).Some? ==>
      exists k :: 0 <= k < |xs| && FirstSome(xs, f) == f(xs[k]) && forall j :: 0 <= j < k ==> f(xs[j]).None?
  {
    if xs != [] {
      FirstSomeIsFirst(xs[1..], f);
      assert forall k :: 1 <= k < |xs| ==> xs[k] == xs[1..][k - 1];
      if f(xs[0]).None? && FirstSome(xs, f).Some? {
        var k :| 0 <= k < |xs[1..]| && FirstSome(xs[1..], f) == f(xs[1..][k]) &&
          forall j :: 0 <= j < k ==> f(xs[1..][j]).None?;
        assert f(xs[k + 1]) == FirstSome(xs, f);
      }
    }
  }

  /** The user agent of the first of `ids` that yields one. */
  function RuleUserAgent(rules: seq<Rule>, ids: seq<string>): (r: Option<string>)
    ensures r.Some? ==> r.value != ""
  {
    FirstSomeIsFirst(ids, id => IdUserAgent(rules, id));
    FirstSome(ids, id => IdUserAgent(rules, id))
  }

  /** `website.urls.some(...)` with the matcher as a parameter. */
  predicate AnyUrlMatches(urls: seq<string>, url: string, matches: (string, string) -> bool)
  {
    exists k :: 0 <= k < |urls| && matches(urls[k], url)
  }

  /** Whether a website supplies the user agent for `url`. */
  function WebsiteUserAgent(w: Website, rules: seq<Rule>, url: string, matches: (string, string) -> bool): Option<string>
  {
    if w.enabled && AnyUrlMatches(w.urls, url, matches) then RuleUserAgent(rules, w.enabledRules) else None
  }

  /** The user agent of the first website, in list order, that supplies one. */
  function FirstUserAgent(ws: seq<Website>, rules: seq<Rule>, url: string, matches: (string, string) -> bool): (r: Option<string>)
    ensures r.Some? ==> r.value != ""
  {
    FirstSomeIsFirst(ws, w => WebsiteUserAgent(w, rules, url, matches));
    FirstSome(ws, w => WebsiteUserAgent(w, rules, url, matches))
  }

  /** Within a website, the first id that yields a user agent decides. */
  lemma RuleUserAgentIsFirst(rules: seq<Rule>, ids: seq<string>)
    ensures RuleUserAgent(rules, ids).None? <==> forall k :: 0 <= k < |ids| ==> IdUserAgent(rules, ids[k]).None?
    ensures RuleUserAgent(rules, ids).Some? ==>
      exists k :: 0 <= k < |ids| && RuleUserAgent(rules, ids) == IdUserAgent(rules, ids[k]) &&
        forall j :: 0 <= j < k ==> IdUserAgent(rules, ids[j]).None?
  {
    FirstSomeIsFirst(ids, id => IdUserAgent(rules, id));
  }

  /** The first website that supplies a user agent decides; later ones are
      never consulted. */
  lemma FirstUserAgentIsFirst(ws: seq<Website>, rules: seq<Rule>, url: string, matches: (string, string) -> bool)
    ensures FirstUserAgent(ws, rules, url, matches).None? <==>
      forall i :: 0 <= i < |ws| ==> WebsiteUserAgent(ws[i], rules, url, matches).None?
    ensures FirstUserAgent(ws, rules, url, matches).Some? ==>
      exists i :: 0 <= i < |ws| && FirstUserAgent(ws, rules, url, matches) == WebsiteUserAgent(ws[i], rules, url, matches) &&
        forall j :: 0 <= j < i ==> WebsiteUserAgent(ws[j], rules, url, matches).None?
  {
    FirstSomeIsFirst(ws, w => WebsiteUserAgent(w, rules, url, matches));
  }

  /** `appVersion`: the user agent without a leading `Mozilla/`. */
  function AppVersion(ua: string): (r: string)
    ensures StartsWith(ua, "Mozilla/") ==> "Mozilla/" + r == ua
    ensures !StartsWith(ua, "Mozilla/") ==> r == ua
  {
    if StartsWith(ua, "Mozilla/") then ua[8..] else ua
  }

  lemma AppVersionOfMozilla(rest: string)
    ensures AppVersion("Mozilla/" + rest) == rest
  {
    assert ("Mozilla/" + rest)[..8] == "Mozilla/";
  }

  /** `navigator.platform`: the first of the tests that hits. */
  function NavPlatform(ua: string): (p: string)
    ensures Contains(ua, "Windows NT") ==> p == "Win32"
    ensures p == "MacIntel" <==> !Contains(ua, "Windows NT") && Contains(ua, "Macintosh")
    ensures p == "Linux armv7l" <==> !Contains(ua, "Windows NT") && !Contains(ua, "Macintosh") && Contains(ua, "Android")
    ensures p in {"Win32", "MacIntel", "Linux armv7l", "Linux x86_64"}
  {
    if Contains(ua, "Windows NT") then "Win32"
    else if Contains(ua, "Macintosh") then "MacIntel"
    else if Contains(ua, "Android") then "Linux armv7l"
    else "Linux x86_64"
  }

  /** The preferences written into the port and dispatched to the page. */
  datatype Prefs = Prefs(userAgent: string, appVersion: string, platform: string)

  /** `checkAndApplyUserAgent` on the configuration read from storage:
      `None` when no website supplies a user agent, in which case nothing
      is written or dispatched. */
  method CheckAndApplyUserAgent(websites: seq<Website>, rules: seq<Rule>, url: string, matches: (string, string) -> bool)
    returns (prefs: Option<Prefs>)
    ensures prefs.None? <==> FirstUserAgent(websites, rules, url, matches).None?
    ensures prefs.Some? ==>
      var ua := FirstUserAgent(websites, rules, url, matches).value;
      prefs.value == Prefs(ua, AppVersion(ua), NavPlatform(ua)) && ua != ""
  {
    var custom: Option<string> := None;
    var i := 0;
    while i < |websites|
      invariant 0 <= i <= |websites|
      invariant custom.None?
      invariant FirstUserAgent(websites, rules, url, matches) == FirstUserAgent(websites[i..], rules, url, matches)
    {
      var w := websites[i];
      assert websites[i..][0] == w && websites[i..][1..] == websites[i + 1..];
      if !w.enabled {
        i := i + 1;
        continue;
      }
      var urlMatches := AnyUrlMatches(w.urls, url, matches);
      if urlMatches {
        custom := FindRuleUserAgent(rules, w.enabledRules);
      }
      assert custom == WebsiteUserAgent(w, rules, url, matches);
      if custom.Some? {
        assert custom == FirstUserAgent(websites, rules, url, matches);
        break;
      }
      i := i + 1;
    }
    if custom.None? {
      return None;
    }
    var ua := custom.value;
    assert ua == FirstUserAgent(websites, rules, url, matches).value;
    var appVersion := AppVersion(ua);
    var platform := NavPlatform(ua);
    prefs := Some(Prefs(ua, appVersion, platform));
  }

  /** The inner loop over `website.enabledRules`, which breaks at the first
      rule with a user-agent header. */
  method FindRuleUserAgent(rules: seq<Rule>, ids: seq<string>) returns (custom: Option<string>)
    ensures custom == RuleUserAgent(rules, ids)
  {
    custom := None;
    var k := 0;
    while k < |ids|
      invariant 0 <= k <= |ids|
      invariant RuleUserAgent(rules, ids) == RuleUserAgent(rules, ids[k..])
    {
      assert ids[k..][0] == ids[k] && ids[k..][1..] == ids[k + 1..];
      var rule := FindEnabledRule(rules, ids[k]);
      if rule.Some? {
        var header := UserAgentHeader(rule.value.headers);
        if header.Some? {
          custom := Some(header.value.value);
          return;
        }
      }
      k := k + 1;
    }
  }
}
