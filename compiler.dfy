// The directive builder inside `loadConfiguration`: every enabled website,
// each of its URL patterns, each `enabledRules` id that resolves to an
// enabled rule, and each header of that rule yield one declarativeNetRequest
// rule with a fresh id in [1, 999999].
module RuleCompiler {
  import opened Wrappers
  import opened Config
  import UrlFilter

  const MaxRuleId: int := 999999
  const ResourceTypes: seq<string> := ["main_frame", "sub_frame", "xmlhttprequest", "other"]

  // `requestHeaders[0]` of a rule; `value` is absent for `remove`.
  datatype RequestHeader = RequestHeader(header: string, operation: string, value: Option<string>)

  // A rule without its id: priority, action and condition.
  datatype Body = Body(priority: int, requestHeader: RequestHeader, urlFilter: string, resourceTypes: seq<string>)

  // The entry `chromeRules.set(id, {website, rule, header})` records.
  datatype Label = Label(website: string, rule: string, header: string)

  // What one header of one rule on one URL pattern becomes, before an id is drawn.
  datatype Planned = Planned(body: Body, info: Label)

  // A rule handed to `updateDynamicRules({addRules})`.
  datatype Directive = Directive(id: int, body: Body)

  function RequestHeaderOf(h: Header): RequestHeader
  {
    RequestHeader(
      h.name,
      if h.operation == "" then "set" else h.operation,
      if h.operation != "remove" then Some(h.value) else None)
  }

  // The fixed shape every built rule has: priority 1, the four resource
  // types, an operation defaulting to `set`, and a value exactly when the
  // operation is not `remove`.
  predicate WellFormed(b: Body)
  {
    && b.priority == 1
    && b.resourceTypes == ResourceTypes
    && b.requestHeader.operation != ""
    && (b.requestHeader.value.Some? <==> b.requestHeader.operation != "remove")
  }

  lemma RequestHeaderShape(h: Header)
    ensures RequestHeaderOf(h).header == h.name
    ensures RequestHeaderOf(h).operation == (if h.operation == "" then "set" else h.operation)
    ensures RequestHeaderOf(h).value == Some(h.value) <==> h.operation != "remove"
    ensures WellFormed(Body(1, RequestHeaderOf(h), "", ResourceTypes))
  {
  }

  function PlanHeader(w: Website, r: Rule, filter: string, h: Header): (p: Planned)
    ensures WellFormed(p.body) && p.body.urlFilter == filter
    ensures p.body.requestHeader.header == h.name && p.info == Label(w.name, r.name, h.name)
  {
    Planned(Body(1, RequestHeaderOf(h), filter, ResourceTypes), Label(w.name, r.name, h.name))
  }

  // `rule.headers.forEach(...)`: one entry per header, in order.
  function HeaderPlans(w: Website, r: Rule, filter: string, hs: seq<Header>): (ps: seq<Planned>)
    ensures |ps| == |hs|
    ensures forall n :: 0 <= n < |ps| ==> ps[n] == PlanHeader(w, r, filter, hs[n])
  {
    if hs == [] then []
    else HeaderPlans(w, r, filter, hs[..|hs| - 1]) + [PlanHeader(w, r, filter, hs[|hs| - 1])]
  }

  function PlanRuleId(w: Website, rules: seq<Rule>, filter: string, id: string): seq<Planned>
  {
    match FindEnabledRule(rules, id)
    case Some(r) => HeaderPlans(w, r, filter, r.headers)
    case None => []
  }

  // `website.enabledRules.forEach(...)` for one URL pattern; dangling and
  // disabled ids contribute nothing.
  function RulePlans(w: Website, rules: seq<Rule>, filter: string, ids: seq<string>): (ps: seq<Planned>)
    ensures |ps| == HeaderCount(rules, ids)
    ensures forall n :: 0 <= n < |ps| ==> WellFormed(ps[n].body) && ps[n].body.urlFilter == filter
  {
    if ids == [] then []
    else RulePlans(w, rules, filter, ids[..|ids| - 1]) + PlanRuleId(w, rules, filter, ids[|ids| - 1])
  }

  // `website.urls.forEach(...)`: every URL pattern repeats the whole
  // rule expansion with its own filter; `filters` are the converted
  // patterns, in order.
  function UrlPlans(w: Website, rules: seq<Rule>, filters: seq<string>): (ps: seq<Planned>)
  {
    if filters == [] then []
    else UrlPlans(w, rules, filters[..|filters| - 1]) + RulePlans(w, rules, filters[|filters| - 1], w.enabledRules)
  }

  function WebsitePlans(w: Website, rules: seq<Rule>): seq<Planned>
  {
    if w.enabled then UrlPlans(w, rules, UrlFilter.Filters(w.urls)) else []
  }

  // `websites.forEach(...)`: the whole expansion of one pass, in the order
  // the rules are pushed into `rulesToAdd`.
  function Plan(ws: seq<Website>, rules: seq<Rule>): (ps: seq<Planned>)
  {
    if ws == [] then []
    else Plan(ws[..|ws| - 1], rules) + WebsitePlans(ws[|ws| - 1], rules)
  }


  // ------------------------------------------------------------------
  // How many rules a pass builds.

  // The number of rules one pass installs for a single website: zero when
  // it is disabled, otherwise its URL count times its header count.
  function WebsiteCount(w: Website, rules: seq<Rule>): nat
  {
    if w.enabled then |w.urls| * HeaderCount(rules, w.enabledRules) else 0
  }

  function TotalCount(ws: seq<Website>, rules: seq<Rule>): nat
  {
    if ws == [] then 0 else TotalCount(ws[..|ws| - 1], rules) + WebsiteCount(ws[|ws| - 1], rules)
  }

  // A pass can only finish when the expansion fits the id range: beyond
  // that the rejection loop of `generateUniqueId` never ends.
  predicate Buildable(c: Configuration)
  {
    TotalCount(c.websites, c.headerRules) <= MaxRuleId
  }

  // Every URL pattern contributes the same number of rules.
  lemma {:induction false} UrlPlansShape(w: Website, rules: seq<Rule>, filters: seq<string>)
    ensures |UrlPlans(w, rules, filters)| == |filters| * HeaderCount(rules, w.enabledRules)
    ensures forall n :: 0 <= n < |UrlPlans(w, rules, filters)| ==> WellFormed(UrlPlans(w, rules, filters)[n].body)
  {
    if filters != [] {
      UrlPlansShape(w, rules, filters[..|filters| - 1]);
      assert |UrlPlans(w, rules, filters)| ==
        (|filters| - 1) * HeaderCount(rules, w.enabledRules) + HeaderCount(rules, w.enabledRules);
    }
  }

  // The number of rules a pass builds is the sum, over enabled websites,
  // of URL count times header count; and every one has the fixed shape.
  lemma {:induction false} PlanShape(ws: seq<Website>, rules: seq<Rule>)
    ensures |Plan(ws, rules)| == TotalCount(ws, rules)
    ensures forall n :: 0 <= n < |Plan(ws, rules)| ==> WellFormed(Plan(ws, rules)[n].body)
  {
    if ws != [] {
      PlanShape(ws[..|ws| - 1], rules);
      UrlFilter.FiltersLength(ws[|ws| - 1].urls);
      UrlPlansShape(ws[|ws| - 1], rules, UrlFilter.Filters(ws[|ws| - 1].urls));
    }
  }

  // ------------------------------------------------------------------
  // Prefix facts used by the builder's bound on drawn ids.

  lemma {:induction false} HeaderCountPrefix(rules: seq<Rule>, ids: seq<string>, k: nat)
    requires k < |ids|
    ensures HeaderCount(rules, ids[..k]) + Contribution(rules, ids[k]) <= HeaderCount(rules, ids)
    decreases |ids| - k
  {
    assert ids[..k + 1][..k] == ids[..k];
    if k + 1 < |ids| {
      HeaderCountPrefix(rules, ids, k + 1);
      assert HeaderCount(rules, ids[..k + 1]) <= HeaderCount(rules, ids[..k + 2]) by {
        assert ids[..k + 2][..k + 1] == ids[..k + 1];
      }
    } else {
      assert ids[..k + 1] == ids;
    }
  }

  lemma {:induction false} PlanPrefix(ws: seq<Website>, rules: seq<Rule>, i: nat)
    requires i < |ws|
    ensures |Plan(ws[..i], rules)| + |WebsitePlans(ws[i], rules)| <= |Plan(ws, rules)|
    decreases |ws| - i
  {
    assert ws[..i + 1][..i] == ws[..i];
    assert Plan(ws[..i + 1], rules) == Plan(ws[..i], rules) + WebsitePlans(ws[i], rules);
    if i + 1 < |ws| {
      PlanPrefix(ws, rules, i + 1);
    } else {
      assert ws[..i + 1] == ws;
    }
  }

  lemma RulePlansSnoc(w: Website, rules: seq<Rule>, filter: string, ids: seq<string>, k: nat)
    requires k < |ids|
    ensures RulePlans(w, rules, filter, ids[..k + 1]) == RulePlans(w, rules, filter, ids[..k]) + PlanRuleId(w, rules, filter, ids[k])
  {
    assert ids[..k + 1][..k] == ids[..k];
  }

  lemma {:induction false} UrlPlansPrefix(w: Website, rules: seq<Rule>, filters: seq<string>, j: nat)
    requires j < |filters|
    ensures |UrlPlans(w, rules, filters[..j + 1])| <= |UrlPlans(w, rules, filters)|
    decreases |filters| - j
  {
    if j + 1 < |filters| {
      UrlPlansPrefix(w, rules, filters, j + 1);
      assert filters[..j + 2][..j + 1] == filters[..j + 1];
    } else {
      assert filters[..j + 1] == filters;
    }
  }

  // One more URL pattern appends its rule expansion and stays within the
  // expansion of the whole list.
  lemma UrlPlansStep(w: Website, rules: seq<Rule>, filters: seq<string>, j: nat)
    requires j < |filters|
    ensures UrlPlans(w, rules, filters[..j + 1]) == UrlPlans(w, rules, filters[..j]) + RulePlans(w, rules, filters[j], w.enabledRules)
    ensures |UrlPlans(w, rules, filters[..j])| + HeaderCount(rules, w.enabledRules) <= |UrlPlans(w, rules, filters)|
  {
    assert filters[..j + 1][..j] == filters[..j];
    UrlPlansPrefix(w, rules, filters, j);
  }

  lemma AppendAssoc<T>(a: seq<T>, b: seq<T>, c: seq<T>)
    ensures (a + b) + c == a + (b + c)
  {
  }

  // ------------------------------------------------------------------
  // The builder.

  // The ids drawn so far are in range, pairwise distinct, recorded in
  // `used`, and keyed in `labels`.
  predicate FreshIds(ds: seq<Directive>, labels: map<int, Label>, used: set<int>)
  {
    && labels.Keys == used
    && |used| == |ds|
    && (forall n :: 0 <= n < |ds| ==> ds[n].id in used)
    && (forall x :: x in used ==> 1 <= x <= MaxRuleId)
    && (forall n, m :: 0 <= n < m < |ds| ==> ds[n].id != ds[m].id)
  }

  // The built rules carry the planned bodies, and `labels` the planned
  // labels, position by position.
  predicate Agrees(ds: seq<Directive>, labels: map<int, Label>, ps: seq<Planned>)
  {
    && |ds| == |ps|
    && forall n :: 0 <= n < |ds| ==> ds[n].body == ps[n].body && ds[n].id in labels && labels[ds[n].id] == ps[n].info
  }

  // The ids 1 to n.
  function Range(n: nat): (r: set<int>)
    ensures |r| == n
    ensures forall x :: x in r <==> 1 <= x <= n
  {
    if n == 0 then {} else Range(n - 1) + {n}
  }

  // Pigeonhole: fewer than n used ids in [1, n] leave one free.
  lemma FreeIdExists(used: set<int>, n: nat)
    requires forall x :: x in used ==> 1 <= x <= n
    requires |used| < n
    ensures exists id :: 1 <= id <= n && id !in used
  {
    var range := Range(n);
    assert range == (range - used) + (range * used);
    assert used == (range * used) + (used - range);
    var id :| id in range - used;
  }

  // The converse: once n ids in [1, n] are in use none is left, so the
  // rejection loop of `generateUniqueId` can never accept a draw.
  lemma NoFreeIdLeft(used: set<int>, n: nat)
    requires forall x :: x in used ==> 1 <= x <= n
    requires |used| >= n
    ensures forall id :: 1 <= id <= n ==> id in used
  {
    var range := Range(n);
    assert used == range * used;
    assert range == (range - used) + (range * used);
    assert |range - used| == 0;
    forall id | 1 <= id <= n
      ensures id in used
    {
      assert id in range;
      assert id !in range - used;
    }
  }

  // `generateUniqueId` followed by `chromeRules.set` and `rulesToAdd.push`.
  method Emit(p: Planned, ds: seq<Directive>, labels: map<int, Label>, used: set<int>, ghost prior: seq<Planned>)
    returns (ds': seq<Directive>, labels': map<int, Label>, used': set<int>)
    requires FreshIds(ds, labels, used) && Agrees(ds, labels, prior)
    requires |prior| < MaxRuleId
    ensures FreshIds(ds', labels', used') && Agrees(ds', labels', prior + [p])
  {
    FreeIdExists(used, MaxRuleId);
    var id :| 1 <= id <= MaxRuleId && id !in used;
    used' := used + {id};
    labels' := labels[id := p.info];
    ds' := ds + [Directive(id, p.body)];
  }

  // `rule.headers.forEach(header => ...)`.
  method EmitHeaders(w: Website, r: Rule, filter: string,
                     ds: seq<Directive>, labels: map<int, Label>, used: set<int>, ghost prior: seq<Planned>)
    returns (ds': seq<Directive>, labels': map<int, Label>, used': set<int>)
    requires FreshIds(ds, labels, used) && Agrees(ds, labels, prior)
    requires |prior| + |r.headers| <= MaxRuleId
    ensures FreshIds(ds', labels', used') && Agrees(ds', labels', prior + HeaderPlans(w, r, filter, r.headers))
  {
    var hs := r.headers;
    ds', labels', used' := ds, labels, used;
    var l := 0;
    while l < |hs|
      invariant 0 <= l <= |hs|
      invariant FreshIds(ds', labels', used') && Agrees(ds', labels', prior + HeaderPlans(w, r, filter, hs[..l]))
    {
      assert hs[..l + 1][..l] == hs[..l];
      ghost var before := prior + HeaderPlans(w, r, filter, hs[..l]);
      ds', labels', used' := Emit(PlanHeader(w, r, filter, hs[l]), ds', labels', used', before);
      assert before + [PlanHeader(w, r, filter, hs[l])] == prior + HeaderPlans(w, r, filter, hs[..l + 1]);
      l := l + 1;
    }
    assert hs[..l] == hs;
  }

  // The body of `website.enabledRules.forEach(ruleId => ...)`: the headers
  // of the rule `ruleId` resolves to, or nothing.
  method EmitRuleId(w: Website, rules: seq<Rule>, filter: string, id: string,
                    ds: seq<Directive>, labels: map<int, Label>, used: set<int>, ghost prior: seq<Planned>)
    returns (ds': seq<Directive>, labels': map<int, Label>, used': set<int>)
    requires FreshIds(ds, labels, used) && Agrees(ds, labels, prior)
    requires |prior| + Contribution(rules, id) <= MaxRuleId
    ensures FreshIds(ds', labels', used') && Agrees(ds', labels', prior + PlanRuleId(w, rules, filter, id))
  {
    var rule := FindEnabledRule(rules, id);
    if rule.Some? {
      ds', labels', used' := EmitHeaders(w, rule.value, filter, ds, labels, used, prior);
    } else {
      ds', labels', used' := ds, labels, used;
      assert prior + PlanRuleId(w, rules, filter, id) == prior;
    }
  }

  // `website.enabledRules.forEach(ruleId => ...)` for one URL pattern.
  method EmitRules(w: Website, rules: seq<Rule>, filter: string,
                   ds: seq<Directive>, labels: map<int, Label>, used: set<int>, ghost prior: seq<Planned>)
    returns (ds': seq<Directive>, labels': map<int, Label>, used': set<int>)
    requires FreshIds(ds, labels, used) && Agrees(ds, labels, prior)
    requires |prior| + HeaderCount(rules, w.enabledRules) <= MaxRuleId
    ensures FreshIds(ds', labels', used') && Agrees(ds', labels', prior + RulePlans(w, rules, filter, w.enabledRules))
  {
    var ids := w.enabledRules;
    ds', labels', used' := ds, labels, used;
    ghost var acc := prior;
    var k := 0;
    while k < |ids|
      invariant 0 <= k <= |ids|
      invariant acc == prior + RulePlans(w, rules, filter, ids[..k])
      invariant FreshIds(ds', labels', used') && Agrees(ds', labels', acc)
    {
      HeaderCountPrefix(rules, ids, k);
      RulePlansSnoc(w, rules, filter, ids, k);
      ghost var step := PlanRuleId(w, rules, filter, ids[k]);
      ds', labels', used' := EmitRuleId(w, rules, filter, ids[k], ds', labels', used', acc);
      AppendAssoc(prior, RulePlans(w, rules, filter, ids[..k]), step);
      acc := acc + step;
      k := k + 1;
    }
    assert ids[..k] == ids;
  }

  // The body of `website.urls.forEach(urlPattern => ...)` for the `j`th
  // URL pattern: the rule expansion under its filter.
  method EmitUrl(w: Website, rules: seq<Rule>, j: nat,
                 ds: seq<Directive>, labels: map<int, Label>, used: set<int>, ghost prior: seq<Planned>)
    returns (ds': seq<Directive>, labels': map<int, Label>, used': set<int>)
    requires j < |w.urls|
    requires FreshIds(ds, labels, used) && Agrees(ds, labels, prior)
    requires |prior| + HeaderCount(rules, w.enabledRules) <= MaxRuleId
    ensures |UrlFilter.Filters(w.urls)| == |w.urls|
    ensures FreshIds(ds', labels', used') &&
            Agrees(ds', labels', prior + RulePlans(w, rules, UrlFilter.Filters(w.urls)[j], w.enabledRules))
  {
    var filter := UrlFilter.ConvertUrlPatternToFilter(w.urls[j]);
    UrlFilter.FiltersAt(w.urls, j);
    ds', labels', used' := EmitRules(w, rules, filter, ds, labels, used, prior);
  }

  // `website.urls.forEach(urlPattern => ...)` for one enabled website.
  method EmitUrls(w: Website, rules: seq<Rule>,
                  ds: seq<Directive>, labels: map<int, Label>, used: set<int>, ghost prior: seq<Planned>)
    returns (ds': seq<Directive>, labels': map<int, Label>, used': set<int>)
    requires FreshIds(ds, labels, used) && Agrees(ds, labels, prior)
    requires |prior| + |UrlPlans(w, rules, UrlFilter.Filters(w.urls))| <= MaxRuleId
    ensures FreshIds(ds', labels', used') && Agrees(ds', labels', prior + UrlPlans(w, rules, UrlFilter.Filters(w.urls)))
  {
    ghost var filters := UrlFilter.Filters(w.urls);
    UrlFilter.FiltersLength(w.urls);
    ds', labels', used' := ds, labels, used;
    ghost var acc := prior;
    var j := 0;
    while j < |w.urls|
      invariant 0 <= j <= |w.urls| && |filters| == |w.urls|
      invariant acc == prior + UrlPlans(w, rules, filters[..j])
      invariant FreshIds(ds', labels', used') && Agrees(ds', labels', acc)
    {
      UrlPlansStep(w, rules, filters, j);
      ghost var step := RulePlans(w, rules, filters[j], w.enabledRules);
      ds', labels', used' := EmitUrl(w, rules, j, ds', labels', used', acc);
      AppendAssoc(prior, UrlPlans(w, rules, filters[..j]), step);
      acc := acc + step;
      j := j + 1;
    }
    assert filters[..j] == filters;
  }

  // `ds` and `labels` realise the planned rules `ps`: the bodies and labels
  // are those of `ps`, in order, and the ids are distinct, within
  // [1, 999999], and exactly the keys of `labels`.
  predicate Realizes(ds: seq<Directive>, labels: map<int, Label>, ps: seq<Planned>)
  {
    && |ds| == |ps|
    && (forall n {:trigger ds[n]} :: 0 <= n < |ds| ==> ds[n].body == ps[n].body)
    && (forall n {:trigger ds[n]} :: 0 <= n < |ds| ==> ds[n].id in labels && labels[ds[n].id] == ps[n].info)
    && (forall n :: 0 <= n < |ds| ==> 1 <= ds[n].id <= MaxRuleId)
    && (forall n, m :: 0 <= n < m < |ds| ==> ds[n].id != ds[m].id)
    && |labels| == |ds|
  }

  // The rules of one pass: those of `Plan`, with fresh ids.
  method BuildDirectives(ws: seq<Website>, rules: seq<Rule>) returns (ds: seq<Directive>, labels: map<int, Label>)
    requires |Plan(ws, rules)| <= MaxRuleId
    ensures Realizes(ds, labels, Plan(ws, rules))
  {
    var used: set<int> := {};
    ds, labels := [], map[];
    var i := 0;
    while i < |ws|
      invariant 0 <= i <= |ws|
      invariant FreshIds(ds, labels, used) && Agrees(ds, labels, Plan(ws[..i], rules))
    {
      assert ws[..i + 1][..i] == ws[..i];
      PlanPrefix(ws, rules, i);
      ghost var acc := Plan(ws[..i], rules);
      if ws[i].enabled {
        ds, labels, used := EmitUrls(ws[i], rules, ds, labels, used, acc);
      } else {
        assert acc + WebsitePlans(ws[i], rules) == acc;
      }
      assert acc + WebsitePlans(ws[i], rules) == Plan(ws[..i + 1], rules);
      i := i + 1;
    }
    assert ws[..i] == ws;
  }
}
