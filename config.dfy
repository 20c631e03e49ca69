/** The persisted configuration: header rules, websites that reference them,
    and the lookups and edits that the background worker, the popup and the
    navigator script all perform on it. */
module Config {
  import opened Wrappers

  /** One header directive of a rule. `operation` is the stored string
      (`"set"`, `"remove"`, or anything an imported file holds); the empty
      string stands for an absent field, which JavaScript treats alike. */
  datatype Header = Header(name: string, operation: string, value: string)

  datatype Rule = Rule(id: string, name: string, enabled: bool, headers: seq<Header>)

  datatype Website = Website(
    id: string,
    name: string,
    enabled: bool,
    urls: seq<string>,
    enabledRules: seq<string>)

  /** The two keys `websites` and `headerRules` as read from storage, each
      defaulting to `[]` when absent. */
  datatype Configuration = Configuration(websites: seq<Website>, headerRules: seq<Rule>)

  /** `rules[i]` is the rule `headerRules.find(r => r.id === id && r.enabled)` looks for. */
  predicate Resolves(r: Rule, id: string)
  {
    r.id == id && r.enabled
  }

  /** `headerRules.find(r => r.id === id && r.enabled)`: the first enabled
      rule with that id. */
  function FindEnabledRule(rules: seq<Rule>, id: string): (r: Option<Rule>)
    ensures r.None? <==> forall i :: 0 <= i < |rules| ==> !Resolves(rules[i], id)
    ensures r.Some? ==> exists i :: 0 <= i < |rules| && rules[i] == r.value && Resolves(r.value, id) &&
                                   forall j :: 0 <= j < i ==> !Resolves(rules[j], id)
  {
    if rules == [] then None
    else if Resolves(rules[0], id) then Some(rules[0])
    else
      var r := FindEnabledRule(rules[1..], id);
      assert forall i :: 1 <= i < |rules| ==> rules[i] == rules[1..][i - 1];
      r
  }

  /** What one `enabledRules` entry adds to a count of headers: the header
      count of the rule it resolves to, or nothing for a dangling or
      disabled id. */
  function Contribution(rules: seq<Rule>, id: string): nat
  {
    match FindEnabledRule(rules, id)
    case Some(r) => |r.headers|
    case None => 0
  }

  /** The number of headers that the ids `ids` select, one term per entry,
      in list order. */
  function HeaderCount(rules: seq<Rule>, ids: seq<string>): nat
  {
    if ids == [] then 0
    else HeaderCount(rules, ids[..|ids| - 1]) + Contribution(rules, ids[|ids| - 1])
  }

  /** A further id adds exactly its own contribution: a duplicated id is
      counted once per occurrence, a dangling or disabled one adds 0. */
  lemma {:induction false} HeaderCountSnoc(rules: seq<Rule>, ids: seq<string>, id: string)
    ensures HeaderCount(rules, ids + [id]) == HeaderCount(rules, ids) + Contribution(rules, id)
    ensures (forall i :: 0 <= i < |rules| ==> !Resolves(rules[i], id)) ==>
              HeaderCount(rules, ids + [id]) == HeaderCount(rules, ids)
  {
    assert (ids + [id])[..|ids|] == ids;
  }

  /** `websites.find(w => w.id === id)`, as an index. */
  function FindWebsite(ws: seq<Website>, id: string): (r: Option<nat>)
    ensures r.None? <==> forall i :: 0 <= i < |ws| ==> ws[i].id != id
    ensures r.Some? ==> r.value < |ws| && ws[r.value].id == id &&
                        forall j :: 0 <= j < r.value ==> ws[j].id != id
  {
    if ws == [] then None
    else if ws[0].id == id then Some(0)
    else
      match FindWebsite(ws[1..], id)
      case None => None
      case Some(k) => Some(k + 1)
  }

  /** `website = websites.find(...); website.enabled = e`: only the first
      website with the id changes, and only in `enabled`. */
  function SetEnabledFirst(ws: seq<Website>, id: string, e: bool): (r: seq<Website>)
    ensures |r| == |ws|
  {
    match FindWebsite(ws, id)
    case None => ws
    case Some(k) => ws[k := ws[k].(enabled := e)]
  }

  lemma SetEnabledFirstEffect(ws: seq<Website>, id: string, e: bool)
    ensures var r := SetEnabledFirst(ws, id, e);
      forall i :: 0 <= i < |ws| ==>
        if FindWebsite(ws, id) == Some(i) then r[i] == ws[i].(enabled := e) && r[i].enabled == e
        else r[i] == ws[i]
    ensures (forall i :: 0 <= i < |ws| ==> ws[i].id != id) ==> SetEnabledFirst(ws, id, e) == ws
  {
  }

  /** Setting the same flag twice is the same as setting it once. */
  lemma SetEnabledFirstIdempotent(ws: seq<Website>, id: string, e: bool)
    ensures SetEnabledFirst(SetEnabledFirst(ws, id, e), id, e) == SetEnabledFirst(ws, id, e)
  {
    var r := SetEnabledFirst(ws, id, e);
    match FindWebsite(ws, id)
    case None =>
    case Some(k) =>
      assert forall i :: 0 <= i < |r| ==> r[i].id == ws[i].id;
      assert FindWebsite(r, id) == Some(k);
  }

  /** `if (!ids.includes(rid)) ids.push(rid)`. */
  function AddOnce(ids: seq<string>, rid: string): (r: seq<string>)
  {
    if rid in ids then ids else ids + [rid]
  }

  /** `ids.filter(r => r !== rid)`. */
  function Without(ids: seq<string>, rid: string): (r: seq<string>)
    ensures |r| <= |ids|
  {
    if ids == [] then []
    else if ids[0] == rid then Without(ids[1..], rid)
    else [ids[0]] + Without(ids[1..], rid)
  }

  lemma AddOnceEffect(ids: seq<string>, rid: string)
    ensures rid in AddOnce(ids, rid)
    ensures forall x :: x in AddOnce(ids, rid) <==> x in ids || x == rid
    ensures AddOnce(AddOnce(ids, rid), rid) == AddOnce(ids, rid)
    ensures ids <= AddOnce(ids, rid)
  {
  }

  /** Removal drops every occurrence of `rid` and keeps every other entry. */
  lemma {:induction false} WithoutEffect(ids: seq<string>, rid: string)
    ensures forall x :: x in Without(ids, rid) <==> x in ids && x != rid
    ensures rid !in ids ==> Without(ids, rid) == ids
  {
    if ids != [] {
      WithoutEffect(ids[1..], rid);
      assert ids == [ids[0]] + ids[1..];
    }
  }

  /** Removal keeps every other entry as often as it occurs. */
  lemma {:induction false} WithoutCounts(ids: seq<string>, rid: string)
    ensures multiset(Without(ids, rid)) == multiset(ids)[rid := 0]
  {
    if ids != [] {
      WithoutCounts(ids[1..], rid);
      assert ids == [ids[0]] + ids[1..];
      var rest := multiset(ids[1..]);
      assert multiset(ids) == multiset{ids[0]} + rest;
      if ids[0] == rid {
        assert Without(ids, rid) == Without(ids[1..], rid);
        assert multiset(ids)[rid := 0] == rest[rid := 0];
      } else {
        assert Without(ids, rid) == [ids[0]] + Without(ids[1..], rid);
        assert multiset(Without(ids, rid)) == multiset{ids[0]} + rest[rid := 0];
      }
    }
  }

  /** Removal keeps the order of the other entries: filtering a list with
      one more entry at the end filters the list and then that entry. */
  lemma {:induction false} WithoutSnoc(ids: seq<string>, x: string, rid: string)
    ensures Without(ids + [x], rid) == Without(ids, rid) + (if x == rid then [] else [x])
  {
    if ids != [] {
      assert (ids + [x])[1..] == ids[1..] + [x];
      WithoutSnoc(ids[1..], x, rid);
    }
  }

  /** `toggleWebsiteRule` on the website list: the first website with id
      `wid` gets `rid` added once (enabled) or removed everywhere (disabled). */
  function SetRuleMembership(ws: seq<Website>, wid: string, rid: string, e: bool): (r: seq<Website>)
    ensures |r| == |ws|
  {
    match FindWebsite(ws, wid)
    case None => ws
    case Some(k) =>
      var ids := if e then AddOnce(ws[k].enabledRules, rid) else Without(ws[k].enabledRules, rid);
      ws[k := ws[k].(enabledRules := ids)]
  }

  lemma SetRuleMembershipEffect(ws: seq<Website>, wid: string, rid: string, e: bool)
    ensures var r := SetRuleMembership(ws, wid, rid, e);
      forall i :: 0 <= i < |ws| ==>
        if FindWebsite(ws, wid) == Some(i) then
          r[i] == ws[i].(enabledRules := r[i].enabledRules) &&
          (rid in r[i].enabledRules <==> e) &&
          (forall x :: x != rid ==> (x in r[i].enabledRules <==> x in ws[i].enabledRules))
        else r[i] == ws[i]
  {
    match FindWebsite(ws, wid)
    case None =>
    case Some(k) =>
      AddOnceEffect(ws[k].enabledRules, rid);
      WithoutEffect(ws[k].enabledRules, rid);
  }

  /** Enabling a rule twice is the same as enabling it once. */
  lemma SetRuleMembershipIdempotent(ws: seq<Website>, wid: string, rid: string)
    ensures SetRuleMembership(SetRuleMembership(ws, wid, rid, true), wid, rid, true)
         == SetRuleMembership(ws, wid, rid, true)
  {
    var r := SetRuleMembership(ws, wid, rid, true);
    match FindWebsite(ws, wid)
    case None =>
    case Some(k) =>
      assert forall i :: 0 <= i < |r| ==> r[i].id == ws[i].id;
      assert FindWebsite(r, wid) == Some(k);
      AddOnceEffect(ws[k].enabledRules, rid);
  }
}
