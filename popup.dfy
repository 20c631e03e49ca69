/** The popup's `PopupManager`: the per-website summary lines it renders
    and the on/off switch that asks the background to toggle a website.
    The DOM is reduced to the lines and switch states it would show. */
module Popup {
  import opened Wrappers
  import opened Config
  import opened RuleCompiler

  /** One rendered website: its name, the number of rule ids it lists, the
      number of headers those ids select, and the switch state. */
  datatype Line = Line(name: string, enabledRulesCount: nat, totalHeaders: nat, active: bool)

  /** The line the popup shows for `w`. */
  function LineOf(w: Website, rules: seq<Rule>): Line
  {
    Line(w.name, |w.enabledRules|, HeaderCount(rules, w.enabledRules), w.enabled)
  }

  /** The header total the popup shows for an enabled website, times the
      number of its URL patterns, is exactly the number of rules the
      background builds for it; a disabled website gets none. */
  lemma HeadersTotalMatchesBuilder(w: Website, rules: seq<Rule>)
    ensures |WebsitePlans(w, rules)| == if w.enabled then |w.urls| * LineOf(w, rules).totalHeaders else 0
  {
    if w.enabled {
      UrlFilter.FiltersLength(w.urls);
      UrlPlansShape(w, rules, UrlFilter.Filters(w.urls));
    }
  }

  /** The total over all websites' lines agrees with the size of a whole
      pass. */
  lemma {:induction false} PassSizeFromLines(ws: seq<Website>, rules: seq<Rule>)
    ensures |Plan(ws, rules)| == TotalCount(ws, rules)
    ensures ws != [] ==>
      TotalCount(ws, rules) == TotalCount(ws[..|ws| - 1], rules) +
        (if ws[|ws| - 1].enabled then |ws[|ws| - 1].urls| * LineOf(ws[|ws| - 1], rules).totalHeaders else 0)
  {
    PlanShape(ws, rules);
  }

  class PopupManager {
    var websites: seq<Website>
    var headerRules: seq<Rule>

    constructor ()
      ensures websites == [] && headerRules == []
    {
      websites := [];
      headerRules := [];
    }

    /** `loadData`: `stored` is what `storageManager.get` resolves to, with
        missing keys already defaulted to `[]`; `None` is a rejected read,
        which leaves both arrays as they were. */
    method LoadData(stored: Option<Configuration>)
      modifies this
      ensures stored.Some? ==> websites == stored.value.websites && headerRules == stored.value.headerRules
      ensures stored.None? ==> websites == old(websites) && headerRules == old(headerRules)
    {
      if stored.Some? {
        websites := stored.value.websites;
        headerRules := stored.value.headerRules;
      }
    }

    /** `countRulesForWebsite`: each listed id adds the header count of the
        first enabled rule with that id. */
    method CountRulesForWebsite(w: Website) returns (total: nat)
      ensures total == HeaderCount(headerRules, w.enabledRules)
    {
      total := 0;
      var k := 0;
      while k < |w.enabledRules|
        invariant 0 <= k <= |w.enabledRules|
        invariant total == HeaderCount(headerRules, w.enabledRules[..k])
      {
        var id := w.enabledRules[k];
        assert w.enabledRules[..k + 1] == w.enabledRules[..k] + [id];
        HeaderCountSnoc(headerRules, w.enabledRules[..k], id);
        var rule := FindEnabledRule(headerRules, id);
        if rule.Some? {
          total := total + |rule.value.headers|;
        }
        k := k + 1;
      }
      assert w.enabledRules[..k] == w.enabledRules;
    }

    /** `renderWebsites`: one line per website, in order; an empty list
        renders the "No websites configured" notice instead. */
    method RenderWebsites() returns (lines: seq<Line>)
      ensures |lines| == |websites|
      ensures forall i :: 0 <= i < |websites| ==> lines[i] == LineOf(websites[i], headerRules)
    {
      lines := [];
      var i := 0;
      while i < |websites|
        invariant 0 <= i <= |websites|
        invariant |lines| == i
        invariant forall j :: 0 <= j < i ==> lines[j] == LineOf(websites[j], headerRules)
      {
        var w := websites[i];
        var totalRules := CountRulesForWebsite(w);
        lines := lines + [Line(w.name, |w.enabledRules|, totalRules, w.enabled)];
        i := i + 1;
      }
    }

    /** The switch handler once the background has answered: the switch
        flips at once and flips back unless the toggle succeeded; only on
        success does the local copy of the first website with the id take
        the new state. */
    method ApplyToggleResponse(websiteId: string, wasActive: bool, success: bool) returns (active: bool)
      modifies this
      ensures active == (if success then !wasActive else wasActive)
      ensures websites == if success then SetEnabledFirst(old(websites), websiteId, !wasActive) else old(websites)
      ensures headerRules == old(headerRules)
    {
      active := !wasActive;
      if success {
        var k := FindWebsite(websites, websiteId);
        if k.Some? {
          websites := websites[k.value := websites[k.value].(enabled := !wasActive)];
        }
      } else {
        active := !active;
      }
    }
  }
}
