/** The options page's `OptionsManager`: the forms that build websites and
    rules, the in-place edits of the two arrays, and import and export.
    The page itself is reduced to the rows its forms hold; saving to
    storage and rendering follow every edit and are not part of this
    model. */
module Options {
  import opened Wrappers
  import opened Strings
  import opened Config

  // ------------------------------------------------------------------
  // Form rows.

  /** One row of the header form: the name input, the operation select
      and the value input. */
  datatype HeaderRow = HeaderRow(name: string, operation: string, value: string)

  /** The header a row contributes, if any: a row needs a name, and a
      `set` row also a value; a `remove` row is stored with an empty
      value. */
  function HeaderOfRow(row: HeaderRow): (h: Option<Header>)
    ensures h.Some? ==> h.value.name == row.name && h.value.name != "" && h.value.operation == row.operation
    ensures h.Some? <==> row.name != "" && ((row.operation == "set" && row.value != "") || row.operation == "remove")
    ensures h.Some? ==> h.value.value == if row.operation == "remove" then "" else row.value
  {
    if row.name == "" then None
    else if row.operation == "set" && row.value != "" then Some(Header(row.name, "set", row.value))
    else if row.operation == "remove" then Some(Header(row.name, "remove", ""))
    else None
  }

  /** The headers a list of rows yields, in row order. */
  function HeadersOf(rows: seq<HeaderRow>): seq<Header>
  {
    if rows == [] then []
    else
      HeadersOf(rows[..|rows| - 1]) +
      match HeaderOfRow(rows[|rows| - 1]) case Some(h) => [h] case None => []
  }

  /** A header is kept in the shape a rule stores it: named, and either a
      `set` with a value or a `remove` with none. */
  predicate StoredHeader(h: Header)
  {
    h.name != "" && ((h.operation == "set" && h.value != "") || (h.operation == "remove" && h.value == ""))
  }

  /** Collecting the rows of two forms one after the other is collecting
      each in turn: the headers keep the order of their rows. */
  lemma {:induction false} HeadersOfConcat(a: seq<HeaderRow>, b: seq<HeaderRow>)
    ensures HeadersOf(a + b) == HeadersOf(a) + HeadersOf(b)
    decreases |b|
  {
    if b == [] {
      assert a + b == a;
    } else {
      var b' := b[..|b| - 1];
      assert (a + b)[..|a + b| - 1] == a + b';
      assert (a + b)[|a + b| - 1] == b[|b| - 1];
      HeadersOfConcat(a, b');
    }
  }

  /** Every kept header has the stored shape, and a form whose rows are
      all complete keeps all of them. */
  lemma {:induction false} HeadersOfShape(rows: seq<HeaderRow>)
    ensures forall k :: 0 <= k < |HeadersOf(rows)| ==> StoredHeader(HeadersOf(rows)[k])
    ensures |HeadersOf(rows)| <= |rows|
    ensures (forall k :: 0 <= k < |rows| ==> HeaderOfRow(rows[k]).Some?) ==> |HeadersOf(rows)| == |rows|
  {
    if rows != [] {
      HeadersOfShape(rows[..|rows| - 1]);
    }
  }

  /** `headerRows.forEach(...)` in `saveRule`. */
  method CollectHeaders(rows: seq<HeaderRow>) returns (headers: seq<Header>)
    ensures headers == HeadersOf(rows)
  {
    headers := [];
    var k := 0;
    while k < |rows|
      invariant 0 <= k <= |rows|
      invariant headers == HeadersOf(rows[..k])
    {
      assert rows[..k + 1][..k] == rows[..k];
      var row := rows[k];
      if row.name != "" {
        if row.operation == "set" && row.value != "" {
          headers := headers + [Header(row.name, row.operation, row.value)];
        } else if row.operation == "remove" {
          headers := headers + [Header(row.name, row.operation, "")];
        }
      }
      k := k + 1;
    }
    assert rows[..k] == rows;
  }

  /** The URLs a website form yields: each input trimmed, empty ones
      dropped, in input order. */
  function UrlsOf(inputs: seq<string>): seq<string>
  {
    if inputs == [] then []
    else
      var u := Trim(inputs[|inputs| - 1]);
      UrlsOf(inputs[..|inputs| - 1]) + (if u != [] then [u] else [])
  }

  /** Every URL kept is non-empty and already trimmed. */
  lemma {:induction false} UrlsOfShape(inputs: seq<string>)
    ensures forall k :: 0 <= k < |UrlsOf(inputs)| ==> UrlsOf(inputs)[k] != [] && Trim(UrlsOf(inputs)[k]) == UrlsOf(inputs)[k]
    ensures |UrlsOf(inputs)| <= |inputs|
  {
    if inputs != [] {
      var init := inputs[..|inputs| - 1];
      UrlsOfShape(init);
      var u := Trim(inputs[|inputs| - 1]);
      if u != [] {
        TrimOfTrimmed(u);
      }
    }
  }

  /** A website form yields no URL exactly when every input is blank. */
  lemma {:induction false} UrlsOfEmpty(inputs: seq<string>)
    ensures UrlsOf(inputs) == [] <==> forall k :: 0 <= k < |inputs| ==> Trim(inputs[k]) == []
  {
    if inputs != [] {
      var init := inputs[..|inputs| - 1];
      var u := Trim(inputs[|inputs| - 1]);
      UrlsOfEmpty(init);
      assert UrlsOf(inputs) == UrlsOf(init) + (if u != [] then [u] else []);
      if UrlsOf(inputs) == [] {
        assert UrlsOf(init) == [] && u == [];
        forall k | 0 <= k < |inputs|
          ensures Trim(inputs[k]) == []
        {
          if k < |init| {
            assert inputs[k] == init[k];
          } else {
            assert k == |inputs| - 1;
          }
        }
      } else if forall k :: 0 <= k < |inputs| ==> Trim(inputs[k]) == [] {
        assert false;
      }
    }
  }

  /** One more input adds its trimmed text unless that is empty. */
  lemma UrlsOfPrefix(inputs: seq<string>, k: nat)
    requires k < |inputs|
    ensures var u := Trim(inputs[k]);
      UrlsOf(inputs[..k + 1]) == UrlsOf(inputs[..k]) + (if u != [] then [u] else [])
  {
    assert inputs[..k + 1][..k] == inputs[..k];
  }

  /** `urlRows.forEach(...)` in `saveWebsite`. */
  method CollectUrls(inputs: seq<string>) returns (urls: seq<string>)
    ensures urls == UrlsOf(inputs)
  {
    urls := [];
    var k := 0;
    while k < |inputs|
      invariant 0 <= k <= |inputs|
      invariant urls == UrlsOf(inputs[..k])
    {
      UrlsOfPrefix(inputs, k);
      var u := Trim(inputs[k]);
      if u != [] {
        urls := urls + [u];
      }
      k := k + 1;
    }
    assert inputs[..k] == inputs;
  }

  // ------------------------------------------------------------------
  // Edits of the arrays.

  /** `headerRules.findIndex(r => r.id === id)`. */
  function FindRule(rules: seq<Rule>, id: string): (r: Option<nat>)
    ensures r.None? <==> forall i :: 0 <= i < |rules| ==> rules[i].id != id
    ensures r.Some? ==> r.value < |rules| && rules[r.value].id == id &&
                        forall j :: 0 <= j < r.value ==> rules[j].id != id
  {
    if rules == [] then None
    else if rules[0].id == id then Some(0)
    else
      match FindRule(rules[1..], id)
      case None => None
      case Some(k) => Some(k + 1)
  }

  /** The `saveWebsite` upsert: an edit replaces the first website with the
      edited id (and does nothing when there is none); a new website is
      appended. */
  function UpsertWebsite(ws: seq<Website>, editing: Option<string>, w: Website): seq<Website>
  {
    match editing
    case None => ws + [w]
    case Some(id) =>
      match FindWebsite(ws, id)
      case None => ws
      case Some(k) => ws[k := w]
  }

  function UpsertRule(rules: seq<Rule>, editing: Option<string>, r: Rule): seq<Rule>
  {
    match editing
    case None => rules + [r]
    case Some(id) =>
      match FindRule(rules, id)
      case None => rules
      case Some(k) => rules[k := r]
  }

  lemma UpsertWebsiteEffect(ws: seq<Website>, editing: Option<string>, w: Website)
    ensures var r := UpsertWebsite(ws, editing, w);
      && (editing.None? ==> r == ws + [w])
      && (editing.Some? ==> |r| == |ws|)
      && (editing.Some? ==> forall i :: 0 <= i < |ws| ==>
            r[i] == if FindWebsite(ws, editing.value) == Some(i) then w else ws[i])
  {
  }

  lemma UpsertRuleEffect(rules: seq<Rule>, editing: Option<string>, rule: Rule)
    ensures var r := UpsertRule(rules, editing, rule);
      && (editing.None? ==> r == rules + [rule])
      && (editing.Some? ==> |r| == |rules|)
      && (editing.Some? ==> forall i :: 0 <= i < |rules| ==>
            r[i] == if FindRule(rules, editing.value) == Some(i) then rule else rules[i])
  {
  }

  /** `splice(index, 1)`: the element at `index` goes, the rest keep their
      order; an index past the end removes nothing. */
  function Spliced<T>(xs: seq<T>, index: nat): seq<T>
  {
    if index < |xs| then xs[..index] + xs[index + 1..] else xs
  }

  lemma SplicedEffect<T>(xs: seq<T>, index: nat)
    ensures index < |xs| ==> |Spliced(xs, index)| == |xs| - 1
    ensures index < |xs| ==> forall j :: 0 <= j < |xs| - 1 ==>
      Spliced(xs, index)[j] == if j < index then xs[j] else xs[j + 1]
    ensures index >= |xs| ==> Spliced(xs, index) == xs
  {
  }

  /** `this.websites[index].enabled = !this.websites[index].enabled`. */
  function FlipWebsite(ws: seq<Website>, index: nat): seq<Website>
    requires index < |ws|
  {
    ws[index := ws[index].(enabled := !ws[index].enabled)]
  }

  function FlipRule(rules: seq<Rule>, index: nat): seq<Rule>
    requires index < |rules|
  {
    rules[index := rules[index].(enabled := !rules[index].enabled)]
  }

  /** A toggle flips exactly one flag, and toggling twice restores the
      array. */
  lemma FlipWebsiteTwice(ws: seq<Website>, index: nat)
    requires index < |ws|
    ensures FlipWebsite(FlipWebsite(ws, index), index) == ws
    ensures forall i :: 0 <= i < |ws| && i != index ==> FlipWebsite(ws, index)[i] == ws[i]
    ensures FlipWebsite(ws, index)[index].enabled != ws[index].enabled
  {
    assert FlipWebsite(FlipWebsite(ws, index), index)[index] == ws[index];
  }

  lemma FlipRuleTwice(rules: seq<Rule>, index: nat)
    requires index < |rules|
    ensures FlipRule(FlipRule(rules, index), index) == rules
    ensures forall i :: 0 <= i < |rules| && i != index ==> FlipRule(rules, index)[i] == rules[i]
    ensures FlipRule(rules, index)[index].enabled != rules[index].enabled
  {
    assert FlipRule(FlipRule(rules, index), index)[index] == rules[index];
  }

  // ------------------------------------------------------------------
  // Import and export.

  /** A top-level field of an imported file: missing, present but falsy
      (`null`, `false`, `0`, `""`), or a truthy array. */
  datatype Field<T> = Absent | Falsy | Truthy(value: T)

  datatype ImportedFile = ImportedFile(websites: Field<seq<Website>>, headerRules: Field<seq<Rule>>)

  /** What the file input delivers: nothing chosen, text that is not
      JSON, the JSON `null` (reading its `websites` throws a TypeError),
      or any other parsed value, seen through its two fields. */
  datatype ImportInput = NoFile | Unparsable | NullDocument | Parsed(data: ImportedFile)

  datatype ImportStatus = Skipped | Rejected(message: string) | Cancelled | Imported(websites: nat, rules: nat)

  /** The object `exportData` writes out. */
  datatype Export = Export(websites: seq<Website>, headerRules: seq<Rule>, exportDate: string, version: string)

  const ExportVersion: string := "1.0"

  /** The file the export produces, as the import reads it back: both
      arrays are objects, so both fields are truthy. */
  function ReadBack(e: Export): ImportedFile
  {
    ImportedFile(Truthy(e.websites), Truthy(e.headerRules))
  }

  /** `importData`'s guard: both fields must be truthy. */
  predicate Acceptable(d: ImportedFile)
  {
    d.websites.Truthy? && d.headerRules.Truthy?
  }

  /** What a confirmed import of `input` leaves in the two arrays. */
  function ImportedArrays(ws: seq<Website>, rules: seq<Rule>, input: ImportInput): (seq<Website>, seq<Rule>)
  {
    if input.Parsed? && Acceptable(input.data) then (input.data.websites.value, input.data.headerRules.value)
    else (ws, rules)
  }

  class OptionsManager {
    var websites: seq<Website>
    var headerRules: seq<Rule>

    constructor (ws: seq<Website>, rules: seq<Rule>)
      ensures websites == ws && headerRules == rules
    {
      websites := ws;
      headerRules := rules;
    }

    /** `saveWebsite`. `editing` is the id of the website the form edits,
        `newId` what `generateId` returns. A form without a usable URL is
        rejected and nothing changes. */
    method SaveWebsite(editing: Option<string>, newId: string, name: string, enabled: bool,
                       urlInputs: seq<string>, checkedRules: seq<string>)
      returns (saved: bool)
      modifies this
      ensures saved <==> UrlsOf(urlInputs) != []
      ensures headerRules == old(headerRules)
      ensures websites ==
        if !saved then old(websites)
        else UpsertWebsite(old(websites), editing,
               Website(if editing.Some? then editing.value else newId, name, enabled, UrlsOf(urlInputs), checkedRules))
    {
      var urls := CollectUrls(urlInputs);
      var website := Website(if editing.Some? then editing.value else newId, name, enabled, urls, checkedRules);
      if |urls| == 0 {
        return false;
      }
      if editing.Some? {
        var index := FindWebsite(websites, editing.value);
        if index.Some? {
          websites := websites[index.value := website];
        }
      } else {
        websites := websites + [website];
      }
      return true;
    }

    /** `saveRule`: a form without a usable header row is rejected and
        nothing changes. */
    method SaveRule(editing: Option<string>, newId: string, name: string, enabled: bool, rows: seq<HeaderRow>)
      returns (saved: bool)
      modifies this
      ensures saved <==> HeadersOf(rows) != []
      ensures websites == old(websites)
      ensures headerRules ==
        if !saved then old(headerRules)
        else UpsertRule(old(headerRules), editing,
               Rule(if editing.Some? then editing.value else newId, name, enabled, HeadersOf(rows)))
    {
      var headers := CollectHeaders(rows);
      var rule := Rule(if editing.Some? then editing.value else newId, name, enabled, headers);
      if |headers| == 0 {
        return false;
      }
      if editing.Some? {
        var index := FindRule(headerRules, editing.value);
        if index.Some? {
          headerRules := headerRules[index.value := rule];
        }
      } else {
        headerRules := headerRules + [rule];
      }
      return true;
    }

    method DeleteWebsite(index: nat, confirmed: bool)
      modifies this
      ensures websites == if confirmed then Spliced(old(websites), index) else old(websites)
      ensures headerRules == old(headerRules)
    {
      if confirmed {
        if index < |websites| {
          websites := websites[..index] + websites[index + 1..];
        }
      }
    }

    method DeleteRule(index: nat, confirmed: bool)
      modifies this
      ensures headerRules == if confirmed then Spliced(old(headerRules), index) else old(headerRules)
      ensures websites == old(websites)
    {
      if confirmed {
        if index < |headerRules| {
          headerRules := headerRules[..index] + headerRules[index + 1..];
        }
      }
    }

    method ToggleWebsite(index: nat)
      requires index < |websites|
      modifies this
      ensures websites == FlipWebsite(old(websites), index) && headerRules == old(headerRules)
    {
      websites := websites[index := websites[index].(enabled := !websites[index].enabled)];
    }

    method ToggleRule(index: nat)
      requires index < |headerRules|
      modifies this
      ensures headerRules == FlipRule(old(headerRules), index) && websites == old(websites)
    {
      headerRules := headerRules[index := headerRules[index].(enabled := !headerRules[index].enabled)];
    }

    /** `exportData`; the date is the caller's clock reading. */
    method ExportData(exportDate: string) returns (e: Export)
      ensures e == Export(websites, headerRules, exportDate, ExportVersion)
    {
      e := Export(websites, headerRules, exportDate, "1.0");
    }

    /** `importData`: a file that is not JSON, is `null` or misses either
        array is rejected before any state is assigned; an accepted and confirmed file replaces both
        arrays, as `ImportedArrays` says. */
    method ImportData(input: ImportInput, confirmed: bool) returns (status: ImportStatus)
      modifies this
      ensures status.Imported? <==> input.Parsed? && Acceptable(input.data) && confirmed
      ensures status.Rejected? <==> input.Unparsable? || input.NullDocument? || (input.Parsed? && !Acceptable(input.data))
      ensures (websites, headerRules) ==
        if confirmed then ImportedArrays(old(websites), old(headerRules), input) else (old(websites), old(headerRules))
      ensures status.Imported? ==> status == Imported(|websites|, |headerRules|)
    {
      if input.NoFile? {
        return Skipped;
      }
      if input.Unparsable? {
        return Rejected("Unexpected token");
      }
      if input.NullDocument? {
        return Rejected("Cannot read properties of null (reading 'websites')");
      }
      var data := input.data;
      if !data.websites.Truthy? || !data.headerRules.Truthy? {
        return Rejected("Invalid configuration file format");
      }
      if !confirmed {
        return Cancelled;
      }
      websites := data.websites.value;
      headerRules := data.headerRules.value;
      return Imported(|websites|, |headerRules|);
    }
  }

  /** Importing an export brings back exactly the exported arrays, even
      empty ones, whatever the arrays were before. */
  lemma ExportImportRoundTrip(ws: seq<Website>, rules: seq<Rule>, date: string, before: seq<Website>, beforeRules: seq<Rule>)
    ensures Acceptable(ReadBack(Export(ws, rules, date, ExportVersion)))
    ensures ImportedArrays(before, beforeRules, Parsed(ReadBack(Export(ws, rules, date, ExportVersion)))) == (ws, rules)
  {
  }

  /** A file that lacks either array never changes anything. */
  lemma IncompleteImportChangesNothing(ws: seq<Website>, rules: seq<Rule>, d: ImportedFile)
    requires !d.websites.Truthy? || !d.headerRules.Truthy?
    ensures ImportedArrays(ws, rules, Parsed(d)) == (ws, rules)
  {
  }
}
