/** The background worker's `HeadersManager`: the reload coordinator around
    the directive builder, and the two toggles that edit the stored website
    list. The declarativeNetRequest engine is reduced to the sequence of
    installed rules, and storage to the configuration each pass reads. */
module Background {
  import opened Wrappers
  import opened Config
  import opened RuleCompiler

  /** Where a pass of `loadConfiguration` can be cut short by a rejected
      promise. `ReadFails` covers `storageManager.get`, `getDynamicRules`
      and the removal call, all of which come before `chromeRules.clear()`;
      `AddFails` is the final `updateDynamicRules({addRules})`. */
  datatype Fault = NoFault | ReadFails | AddFails

  /** What the environment does during one pass: the configuration storage
      hands back, how many re-entrant `loadConfiguration` calls (storage
      change events) arrive while the pass awaits, and whether it fails. */
  datatype PassEnv = PassEnv(config: Configuration, reloads: nat, fault: Fault)

  /** A pass after which the do-while loop stops: it failed, or no reload
      was requested while it ran. */
  predicate Stops(e: PassEnv)
  {
    e.fault != NoFault || e.reloads == 0
  }

  predicate Ends(script: seq<PassEnv>)
  {
    exists k :: 0 <= k < |script| && Stops(script[k])
  }

  /** The index of the last pass a call runs: the first one that stops. */
  function LastPass(script: seq<PassEnv>): (n: nat)
    requires Ends(script)
    ensures n < |script| && Stops(script[n])
    ensures forall j :: 0 <= j < n ==> !Stops(script[j])
  {
    if Stops(script[0]) then 0
    else
      assert forall k :: 1 <= k < |script| ==> script[k] == script[1..][k - 1];
      assert Ends(script[1..]) by {
        var k :| 0 <= k < |script| && Stops(script[k]);
        assert script[1..][k - 1] == script[k];
      }
      1 + LastPass(script[1..])
  }

  /** Reload coalescing: how many requests arrive during a pass does not
      matter, only whether any does. Replacing the count of a non-failing
      pass by any other positive count leaves the number of passes as it
      is. */
  lemma ReloadsCoalesce(script: seq<PassEnv>, k: nat, m: nat)
    requires Ends(script) && k < |script|
    requires script[k].reloads > 0 && m > 0
    ensures Ends(script[k := script[k].(reloads := m)])
    ensures LastPass(script[k := script[k].(reloads := m)]) == LastPass(script)
  {
    var s := script[k := script[k].(reloads := m)];
    assert forall j :: 0 <= j < |s| ==> (Stops(s[j]) <==> Stops(script[j]));
    var n := LastPass(script);
    assert Stops(s[n]);
    var n' := LastPass(s);
    assert Stops(script[n']);
  }

  /** A single request arriving during an otherwise quiet pass buys exactly
      one more pass. */
  lemma OneRequestOneExtraPass(e: PassEnv, rest: seq<PassEnv>)
    requires e.fault == NoFault && e.reloads > 0 && Ends(rest)
    ensures Ends([e] + rest)
    ensures LastPass([e] + rest) == LastPass(rest) + 1
  {
    var s := [e] + rest;
    var k :| 0 <= k < |rest| && Stops(rest[k]);
    assert s[k + 1] == rest[k];
    assert s[1..] == rest;
  }

  /** A pass the source can run: its configuration expands to at most
      999999 rules, and its addition can only be rejected when there is
      something to add (an empty `rulesToAdd` skips `updateDynamicRules`). */
  predicate Possible(e: PassEnv)
  {
    Buildable(e.config) && (e.fault == AddFails ==> |PlanOf(e.config)| > 0)
  }

  /** Every pass of `script` is one the source can run. */
  predicate AllBuildable(script: seq<PassEnv>)
  {
    script == [] || (Possible(script[0]) && AllBuildable(script[1..]))
  }

  lemma {:induction false} AllBuildableAt(script: seq<PassEnv>, k: nat)
    requires AllBuildable(script) && k < |script|
    ensures Buildable(script[k].config)
  {
    if k > 0 {
      AllBuildableAt(script[1..], k - 1);
    }
  }

  /** The engine and the label map hold exactly the rules a pass builds
      for `c`. */
  predicate Installs(installed: seq<Directive>, labels: map<int, Label>, c: Configuration)
  {
    Realizes(installed, labels, PlanOf(c))
  }

  /** The rules a pass builds from `c`. */
  function PlanOf(c: Configuration): seq<Planned>
  {
    Plan(c.websites, c.headerRules)
  }

  class HeadersManager {
    var isLoading: bool
    var pendingReload: bool
    /** The dynamic rules the declarativeNetRequest engine holds. */
    var installed: seq<Directive>
    /** `chromeRules`: rule id to the website, rule and header it came from. */
    var chromeRules: map<int, Label>
    /** The number of passes run so far. */
    ghost var passes: nat

    constructor ()
      ensures !isLoading && !pendingReload && installed == [] && chromeRules == map[] && passes == 0
    {
      isLoading := false;
      pendingReload := false;
      installed := [];
      chromeRules := map[];
      passes := 0;
    }

    /** `loadConfiguration`. A call that finds a pass running only sets
        `pendingReload`. Otherwise it runs passes until one stops and always
        ends with `isLoading` false: the try/finally around the loop. */
    method LoadConfiguration(script: seq<PassEnv>)
      requires !isLoading ==> Ends(script)
      requires !isLoading ==> AllBuildable(script)
      modifies this
      decreases if isLoading then 0 else 2
      ensures old(isLoading) ==>
        isLoading && pendingReload && installed == old(installed) &&
        chromeRules == old(chromeRules) && passes == old(passes)
      ensures !old(isLoading) ==> !isLoading
      ensures !old(isLoading) ==>
        var n := LastPass(script);
        && passes == old(passes) + n + 1
        && PassEffect(script[n], installed, chromeRules, pendingReload)
    {
      if isLoading {
        pendingReload := true;
        return;
      }
      isLoading := true;
      ghost var n := LastPass(script);
      var k := 0;
      var more := true;
      while more
        invariant 0 <= k <= n + 1 && isLoading
        invariant passes == old(passes) + k
        invariant more <==> k <= n
        invariant !more ==> PassEffect(script[n], installed, chromeRules, pendingReload)
        decreases n + 1 - k
      {
        AllBuildableAt(script, k);
        var failed := RunPass(script[k]);
        k := k + 1;
        more := !failed && pendingReload;
      }
      isLoading := false;
    }

    /** `toggleWebsite`: `websites` is what storage holds under that key.
        When a website has the id, the list with its `enabled` set is saved
        and the configuration reloaded; otherwise nothing happens. The
        reload reads both keys back from storage, which need not return the
        list just saved (`Storage.SetWebsitesThenLoad` says when it does);
        when its first pass reads that list and runs quietly, exactly the
        saved list's rules are installed. When a pass is already running,
        the reload is only requested. */
    method ToggleWebsite(websites: seq<Website>, websiteId: string, enabled: bool, script: seq<PassEnv>)
      returns (saved: Option<seq<Website>>)
      requires !isLoading ==> Ends(script) && AllBuildable(script)
      modifies this
      ensures saved.None? <==> forall i :: 0 <= i < |websites| ==> websites[i].id != websiteId
      ensures saved.Some? ==> saved.value == SetEnabledFirst(websites, websiteId, enabled)
      ensures saved.None? ==>
        isLoading == old(isLoading) && pendingReload == old(pendingReload) &&
        installed == old(installed) && chromeRules == old(chromeRules) && passes == old(passes)
      ensures saved.Some? && old(isLoading) ==>
        isLoading && pendingReload && installed == old(installed) && chromeRules == old(chromeRules) &&
        passes == old(passes)
      ensures saved.Some? && !old(isLoading) ==>
        var n := LastPass(script);
        && !isLoading && passes == old(passes) + n + 1
        && PassEffect(script[n], installed, chromeRules, pendingReload)
      ensures saved.Some? && !old(isLoading) && script[0].fault == NoFault && script[0].reloads == 0 &&
              script[0].config.websites == saved.value ==>
        Installs(installed, chromeRules, Configuration(saved.value, script[0].config.headerRules))
    {
      var k := FindWebsite(websites, websiteId);
      if k.None? {
        return None;
      }
      saved := Some(websites[k.value := websites[k.value].(enabled := enabled)]);
      LoadConfiguration(script);
    }

    /** `toggleWebsiteRule`: adds `ruleId` once to, or removes every copy of
        it from, the `enabledRules` of the website with the id, saves the
        list and reloads; nothing happens when no website has the id. The
        reload is as for `toggleWebsite`. */
    method ToggleWebsiteRule(websites: seq<Website>, websiteId: string, ruleId: string, enabled: bool,
                             script: seq<PassEnv>)
      returns (saved: Option<seq<Website>>)
      requires !isLoading ==> Ends(script) && AllBuildable(script)
      modifies this
      ensures saved.None? <==> forall i :: 0 <= i < |websites| ==> websites[i].id != websiteId
      ensures saved.Some? ==> saved.value == SetRuleMembership(websites, websiteId, ruleId, enabled)
      ensures saved.None? ==>
        isLoading == old(isLoading) && pendingReload == old(pendingReload) &&
        installed == old(installed) && chromeRules == old(chromeRules) && passes == old(passes)
      ensures saved.Some? && old(isLoading) ==>
        isLoading && pendingReload && installed == old(installed) && chromeRules == old(chromeRules) &&
        passes == old(passes)
      ensures saved.Some? && !old(isLoading) ==>
        var n := LastPass(script);
        && !isLoading && passes == old(passes) + n + 1
        && PassEffect(script[n], installed, chromeRules, pendingReload)
      ensures saved.Some? && !old(isLoading) && script[0].fault == NoFault && script[0].reloads == 0 &&
              script[0].config.websites == saved.value ==>
        Installs(installed, chromeRules, Configuration(saved.value, script[0].config.headerRules))
    {
      var k := FindWebsite(websites, websiteId);
      if k.None? {
        return None;
      }
      var w := websites[k.value];
      var ids := w.enabledRules;
      if enabled {
        if ruleId !in ids {
          ids := ids + [ruleId];
        }
      } else {
        ids := Without(ids, ruleId);
      }
      saved := Some(websites[k.value := w.(enabledRules := ids)]);
      LoadConfiguration(script);
    }

    /** One iteration of the do-while loop. Storage change events that
        arrive while it awaits re-enter `loadConfiguration`; a rejection
        ends the pass where it happens. */
    method RunPass(e: PassEnv) returns (failed: bool)
      requires isLoading && Buildable(e.config)
      modifies this
      decreases 1
      ensures isLoading && passes == old(passes) + 1
      ensures failed == (e.fault != NoFault)
      ensures PassEffect(e, installed, chromeRules, pendingReload)
      ensures e.fault == ReadFails ==> installed == old(installed) && chromeRules == old(chromeRules)
    {
      pendingReload := false;
      var r := 0;
      while r < e.reloads
        invariant 0 <= r <= e.reloads && isLoading
        invariant pendingReload == (r > 0)
        invariant installed == old(installed) && chromeRules == old(chromeRules) && passes == old(passes)
      {
        LoadConfiguration([]);
        r := r + 1;
      }
      passes := passes + 1;
      failed := e.fault != NoFault;
      if e.fault != ReadFails {
        var c := e.config;
        installed := [];
        PlanShape(c.websites, c.headerRules);
        var ds, labels := BuildDirectives(c.websites, c.headerRules);
        chromeRules := labels;
        if e.fault == NoFault {
          installed := ds;
        }
      }
    }
  }

  /** What a pass leaves behind: `pendingReload` records whether a request
      arrived while it ran; a pass that completes installs exactly the rules
      built for the configuration it read, and one whose addition is
      rejected leaves the engine empty but `chromeRules` filled. */
  predicate PassEffect(e: PassEnv, installed: seq<Directive>, labels: map<int, Label>, pending: bool)
  {
    && pending == (e.reloads > 0)
    && (e.fault == NoFault ==> Installs(installed, labels, e.config))
    && (e.fault == AddFails ==> installed == [] && |labels| == |PlanOf(e.config)|)
  }

  /** The pass that stops first is the last one. */
  lemma LastPassIs(script: seq<PassEnv>, n: nat)
    requires n < |script| && Stops(script[n])
    requires forall j :: 0 <= j < n ==> !Stops(script[j])
    ensures Ends(script) && LastPass(script) == n
  {
    var m := LastPass(script);
    assert !(m < n) && !(n < m);
  }
}
