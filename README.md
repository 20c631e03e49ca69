# Headers Manager — a Dafny model

Headers Manager is a browser extension that adds, replaces or removes HTTP
request headers on the websites a user lists. A *website* has URL patterns and
a list of *rule* ids. A *rule* is a named list of headers, each with an
operation `set` or `remove`. This project models the sequential core of the
extension in Dafny and proves what that core promises:

- `urlfilter.dfy`: `convertUrlPatternToFilter`, which turns a user-friendly URL
  pattern into a declarativeNetRequest `urlFilter`.
- `compiler.dfy`: the directive builder inside `loadConfiguration`. It expands
  every enabled website, each of its URL patterns, each rule id that resolves
  to an enabled rule and each header of that rule into one dynamic rule with
  a fresh id in [1, 999999].
- `background.dfy`: the `HeadersManager` reload coordinator (`isLoading`,
  `pendingReload`, the do-while loop and its try/finally), and the
  `toggleWebsite`/`toggleWebsiteRule` message handlers. Each pass replaces
  the installed rules wholesale.
- `storage.dfy`: the `StorageManager` that selects between the `sync` and
  `local` storage areas. It covers type selection, the one-time migration,
  size-triggered and quota-triggered migration, merged reads, remove, clear,
  migrate-back, the change-listener filter and the recommendations.
- `navigator.dfy`: the isolated-world injection script. It builds
  `navigator.userAgentData` (brands, platform, mobile,
  `getHighEntropyValues`) and resolves the custom User-Agent for a page,
  together with the derived `appVersion` and `platform`.
- `options.dfy`: the options page's `OptionsManager`. It covers header-row and
  URL collection, the save upsert with its rejections, toggle, delete,
  import validation and export.
- `popup.dfy`: the popup's `PopupManager`. It covers the per-website header
  count, which is tied to the builder's rule count, and the local state
  update after a toggle response.
- `config.dfy` holds the entities and the lookups the files share.
  `strings.dfy` holds the JavaScript string operations the code relies on
  (`indexOf`, `includes`, `lastIndexOf`, `startsWith`, `endsWith`, `trim`,
  ASCII `toLowerCase`). `wrappers.dfy` holds `Option` and `Result`.

Parts of the system outside the model become parameters:
- Every storage call that can reject, and whose rejection the code handles,
  becomes a parameter. `InitFaults` covers the type read of `init` and the
  sync read and `sync.clear` of the one-time migration. `SyncFaults` covers
  the sync read and `sync.clear` on the migrating paths of `set`. A
  `WriteOutcome` is how a `sync.set` ends. A `bool` covers the sync read in
  `get`, the `sync.remove` and `sync.clear` that `Promise.allSettled`
  swallows, and the `sync.clear` of `migrateBackToSync`.
- The byte size of the JSON text of a map becomes the function `sizeOf`,
  supplied when the manager is constructed.
- `Math.random` in the id loop becomes a choice of any unused id in range.
- The regex URL matcher becomes a `matches` predicate parameter.
- What each pass of `loadConfiguration` reads and suffers becomes a
  `PassEnv`: the configuration read, the number of reload requests that
  arrive during the pass, and where a rejection cuts the pass short. The
  final addition can only reject in a pass with rules to add, since an
  empty `rulesToAdd` skips `updateDynamicRules` (background.js:130-134).
  The configuration a pass reads is not derived from storage.
  `Storage.SetWebsitesThenLoad` states when the read after a toggle's save
  returns the saved list.
- Form inputs become sequences of rows; `confirm()` becomes a `bool`.
- `generateId` becomes an id parameter.

Where the code and its description differ, the model follows the code
(the one exception is the finding under "## Findings"):
- `StorageManager.get` overlays the sync result with the local values, so
  local wins on a key both areas hold (storage-manager.js:114). The model
  states this in `Storage.GetMerges`.
- A pattern with no `/` after the scheme gets `/*` even when it already ends
  in `*`, as in `https://localhost:*` (background.js:172-174). See
  `UrlFilter.HostOnlyPattern`.
- When a pattern has no `://`, the offset after the scheme is
  `-1 + 3 = 2` (background.js:169). `UrlFilter.ProtocolEnd` keeps that value.
- The injection script reads `chrome.storage.sync` directly
  (inject/isolated.js:105). The storage manager is not consulted, so a
  configuration held in `local` is not seen there. The model takes the two
  arrays it reads as parameters.

## Model

| member | source | states |
|---|---|---|
| UrlFilter.FilterExtendsPattern | background.js:150-192 | the filter is the trimmed pattern followed by nothing, `*` or `/*` |
| UrlFilter.SubdomainPattern | background.js:155-164 | a pattern containing `://*.` is kept if it ends in `*` or `/`, and gets `/*` otherwise |
| UrlFilter.HostOnlyPattern | background.js:167-174 | an ordinary pattern with no `/` after the scheme separator gets `/*`, even if it ends in `*` |
| UrlFilter.PathPattern | background.js:175-188 | an ordinary pattern with a path: a trailing `/` gets `*`, a trailing `*` is kept, a last segment containing `.` is kept, any other gets `/*` |
| UrlFilter.LastSegmentHasNoSlash | background.js:182 | of a pattern with a path, the last segment holds no `/` |
| UrlFilter.FilterIsTrimmed | background.js:152-191 | a filter has no whitespace at either end, whitespace being every character JavaScript's `trim` strips (ECMAScript WhiteSpace and LineTerminator, Unicode separators included) |
| UrlFilter.FilterIsFixedPoint | background.js:150-192 | converting a filter of a pattern with `://` again leaves it unchanged |
| UrlFilter.HasPathKept | background.js:169-170 | appending `/*` (or `*` to a pattern with a path) keeps the scheme-separator offset and leaves a path |
| UrlFilter.FiltersAt | background.js:86-87 | the filter list of a website has one filter per URL pattern, position by position |
| Config.FindEnabledRule | background.js:88-89 | `find(r => r.id === id && r.enabled)`: `None` iff no rule resolves, otherwise the first rule that resolves |
| Config.HeaderCountSnoc | background.js:86-92 | one more id adds its own contribution; a dangling or disabled id adds nothing, and a duplicate counts once per occurrence |
| Config.FindWebsite | background.js:254 | `find(w => w.id === id)` as an index: `None` iff no website has the id, otherwise the first index that does |
| Config.SetEnabledFirstEffect | background.js:254-256 | only the first website with the id changes, and only its `enabled`; with no such website nothing changes |
| Config.SetEnabledFirstIdempotent | background.js:254-256 | setting the same state twice is setting it once |
| Config.AddOnceEffect | background.js:268-270 | enabling a rule id appends it only when it is absent: the id set grows by exactly that id, the list only grows, and repeating is idempotent |
| Config.WithoutEffect | background.js:271-273 | disabling keeps exactly the ids other than the rule id, and changes nothing when it is absent |
| Config.WithoutCounts | background.js:271-273 | every other id is kept as often as it occurs, and the rule id not at all |
| Config.WithoutSnoc | background.js:271-273 | the other ids keep their order: filtering a list extended by one id filters the list, then that id |
| Config.SetRuleMembershipEffect | background.js:266-274 | only the first website with the id has its `enabledRules` changed, as the two cases say |
| Config.SetRuleMembershipIdempotent | background.js:266-270 | enabling the same rule twice is enabling it once |
| RuleCompiler.RequestHeaderShape | background.js:100-121 | the request header carries `value` iff the operation is not `remove`, its operation defaults to `set`, and the rule has priority 1 and the four resource types |
| RuleCompiler.PlanHeader | background.js:93-121 | each planned rule is well formed, filters on its URL pattern's filter and is labelled with its website, rule and header |
| RuleCompiler.HeaderPlans | background.js:92-127 | a rule contributes one planned rule per header, in header order |
| RuleCompiler.RulePlans | background.js:86-128 | a URL pattern contributes as many rules as the header count of its website's ids, all on its filter |
| RuleCompiler.UrlPlansShape | background.js:85-128 | a website contributes the number of its URL patterns times its header count, all well formed |
| RuleCompiler.PlanShape | background.js:83-128 | a pass builds exactly the sum over enabled websites of URL patterns times header count |
| RuleCompiler.FreeIdExists | background.js:70-78 | fewer than 999999 used ids leave a free id in [1, 999999] |
| RuleCompiler.NoFreeIdLeft | background.js:70-78 | once 999999 ids in [1, 999999] are in use none is free, so the rejection loop cannot accept a draw |
| RuleCompiler.Emit | background.js:70-124 | a drawn id is fresh and in range; the rule and its `chromeRules` label are recorded |
| RuleCompiler.EmitHeaders | background.js:92-125 | the loop over a rule's headers emits exactly that rule's planned rules with fresh ids |
| RuleCompiler.EmitRules | background.js:86-127 | the loop over enabled rule ids emits exactly the planned rules for one URL pattern |
| RuleCompiler.EmitUrls | background.js:85-128 | the loop over URL patterns emits exactly the website's planned rules |
| RuleCompiler.BuildDirectives | background.js:66-128 | the built rules are exactly the plan: same bodies and labels in order, with distinct ids in [1, 999999] that are exactly the keys of `chromeRules` |
| Background.LastPass | background.js:46-141 | the loop runs until the first pass that fails or has no request arriving during it |
| Background.ReloadsCoalesce | background.js:37-141 | how many requests arrive during a pass does not change the number of passes, only whether any does |
| Background.OneRequestOneExtraPass | background.js:37-141 | a request during a quiet pass buys exactly one more pass |
| Background.HeadersManager.LoadConfiguration | background.js:35-148 | a call during a pass only sets `pendingReload`; otherwise passes run until one stops, `isLoading` is false on exit, and the last pass's effect is in place |
| Background.HeadersManager.RunPass | background.js:46-141 | one pass: a read failure leaves the engine as it was, a completed pass installs exactly the built rules, a failed addition leaves the engine empty |
| Background.HeadersManager.ToggleWebsite | background.js:250-260 | nothing happens without a website with the id; otherwise its `enabled` is saved and the configuration reloaded: during a running pass only `pendingReload` is set, otherwise the passes run to the first stop; when the first pass is quiet and reads the saved list back, exactly that list's rules are installed |
| Background.HeadersManager.ToggleWebsiteRule | background.js:262-278 | nothing happens without a website with the id; otherwise its rule membership is saved and reloaded, with the same in-pass and installed-rules cases as `ToggleWebsite` |
| Background.LastPassIs | background.js:46-141 | the first pass that stops is the last one |
| Storage.StorageManager.Init | storage-manager.js:22-41 | the state becomes `Initialized` of the old state, for every outcome of the type read and of the migration's sync calls |
| Storage.StorageManager.PerformMigrationIfNeeded | storage-manager.js:43-67 | the state becomes `Migrated` of the old state: a rejected sync read or migration is caught with no marker written |
| Storage.StorageManager.MigrateToLocalStorage | storage-manager.js:69-86 | local takes the data over what it had; then sync is cleared and the type is `local`, persisted, unless `sync.clear` rejects, in which case it rethrows with sync and the type unchanged |
| Storage.StorageManager.Get | storage-manager.js:97-124 | initialises, then returns `GetResult` |
| Storage.StorageManager.MigrateWith | storage-manager.js:158-160 | reads sync's `headerRules`/`websites` and migrates them overlaid with the data; reports a rejection of either sync call |
| Storage.StorageManager.Set | storage-manager.js:126-172 | initialises, then leaves the state `SetResult` describes, for every outcome of `sync.set` and of the sync read and clear of a migration |
| Storage.StorageManager.Remove | storage-manager.js:174-192 | initialises, then removes the keys from local, and from sync too unless the type is `local` or the swallowed `sync.remove` rejects |
| Storage.StorageManager.Clear | storage-manager.js:194-210 | initialises, then empties local and persists type `sync`; sync is emptied unless the swallowed `sync.clear` rejects |
| Storage.StorageManager.GetStorageRecommendations | storage-manager.js:265-281 | returns exactly the warnings `Recommendations` lists, in order |
| Storage.StorageManager.MigrateBackToSync | storage-manager.js:284-318 | initialises, then leaves the state and throws the error `MigrateBack` describes, with the `sync.clear` and `sync.set` outcomes as parameters |
| Storage.RestrictIn | storage-manager.js:101-110 | a read of keys from an area returns exactly the requested keys the area holds, with their values |
| Storage.InitOnce | storage-manager.js:22-41 | `init` works once; a failed type read selects `local`; with no stored type and the migration done, `sync` is used |
| Storage.MigrationOnce | storage-manager.js:43-67 | the marker is written iff no sync call rejects, and once written the migration does nothing; sync is emptied iff its data exceeds 81920 bytes and both sync calls succeed, and then local holds that data with type `local`; a rejection leaves sync, the type and the missing marker as they were |
| Storage.SetInLocalMode | storage-manager.js:132-133 | in `local` mode only local changes, and takes the data |
| Storage.SetMigrates | storage-manager.js:137-160 | too large for sync, or a quota error: the type becomes `local`, persisted; with both sync calls succeeding local holds the data over sync's `headerRules`/`websites` and sync is empty, and with either rejecting sync is left as it was |
| Storage.SetFallsBack | storage-manager.js:161-171 | a `sync.set` failure other than the quota, or a rejected migration, writes the data to local and switches to `local`, leaving sync as it is |
| Storage.SetPlacesData | storage-manager.js:126-172 | with type `sync` or `local`, a write ends either in local with type `local` or in sync with type `sync` |
| Storage.SetThenGet | storage-manager.js:97-172 | keys just written read back as written, whichever path the write took and whichever sync call rejected |
| Storage.SetWebsitesThenLoad | storage-manager.js:97-172 | after `set({websites: w})`, a read of both data keys returns `w` in `local` mode, or when sync can be read and holds `headerRules` or local has no `websites`; otherwise local's own `websites`, if any, is returned |
| Storage.GetMerges | storage-manager.js:106-117 | in sync mode the sync result is returned when it has all keys; otherwise local values win over sync values |
| Storage.GetLocal | storage-manager.js:101-123 | in `local` mode, or when the sync read fails, only local answers |
| Storage.RemoveThenGet | storage-manager.js:174-192 | removed keys are absent from every later read, except that outside `local` mode a swallowed `sync.remove` rejection lets a read of sync return them |
| Storage.ClearThenGet | storage-manager.js:194-210 | after `clear` local holds only the type `sync`; reads of other keys are empty, except that a swallowed `sync.clear` rejection lets a read of sync return what sync held |
| Storage.MigrateBackEffect | storage-manager.js:284-318 | refuses without change when already `sync`, too large or `sync.clear` rejects; a rejected write leaves sync empty; it succeeds iff none of these happens, and then sync holds exactly local's `headerRules`/`websites`, local loses them, type `sync` persisted |
| Storage.MigrateBackKeepsSettings | storage-manager.js:284-318 | a successful migrate-back leaves what a read of the settings returns unchanged |
| Storage.RecommendationsCases | storage-manager.js:265-281 | each warning appears iff its condition holds, and at most two appear |
| Storage.ForwardsCurrentArea | storage-manager.js:213-225 | an event is forwarded only from the area in use, and always from it |
| Navigator.DataPlatform | inject/isolated.js:31-38 | the platform by first substring hit: `Windows NT`, then `Macintosh`/`Mac OS`, then `Linux`, else `Unknown` |
| Navigator.VersionRun | inject/isolated.js:44-53 | the version after a tag is the longest run of digits and dots |
| Navigator.FirstField | inject/isolated.js:44-53 | the major version is the text before the first `.` |
| Navigator.MatchAt | inject/isolated.js:44-53 | the regex match is the leftmost occurrence of the tag followed by a version character |
| Navigator.MajorVersionDigits | inject/isolated.js:44-53 | a major version is made of digits only |
| Navigator.IsMobileTest | inject/isolated.js:29 | `mobile` is whether the user agent holds one of the mobile tokens, ignoring case |
| Navigator.CreateUserAgentData | inject/isolated.js:27-100 | brands start with `Not/A)Brand`; a `Chrome/` match adds `Chromium` and `Google Chrome` with its major version; an `Edg/` match adds `Microsoft Edge` last; 1 to 4 brands |
| Navigator.FullVersion | inject/isolated.js:91 | the corrected full version: the second brand's version plus `.0.0.0`, or `139.0.0.0` without one |
| Navigator.FullVersionAsWrittenUndefined | inject/isolated.js:91 | as written, a brand list of one gives `undefined.0.0.0`, not the fallback |
| Navigator.FullVersionAgrees | inject/isolated.js:91 | with a second brand, the code as written and the corrected version agree |
| Navigator.FullVersionOfChrome | inject/isolated.js:40-91 | for a Chrome user agent the full version is its major version plus `.0.0.0` |
| Navigator.GetHighEntropyValues | inject/isolated.js:71-98 | rejects iff `hints` is not an array; otherwise brands, mobile and platform, plus exactly the fields named in `hints`; `uaFullVersion` is the corrected one, and equals the code's own value whenever there are two brands |
| Navigator.UserAgentHeader | inject/isolated.js:139-146 | the first header named `user-agent` (any case) with operation `set` and a non-empty value, or `None` iff there is none |
| Navigator.FirstSomeIsFirst | inject/isolated.js:113-155 | the search with `break` yields `None` iff no candidate yields a value, and otherwise the value of the first that does |
| Navigator.RuleUserAgentIsFirst | inject/isolated.js:136-150 | within a website, the user agent comes from the first id whose enabled rule has such a header; `None` iff no id gives one |
| Navigator.FirstUserAgentIsFirst | inject/isolated.js:113-155 | the user agent comes from the first enabled matching website that yields one; later ones are never examined |
| Navigator.FindRuleUserAgent | inject/isolated.js:136-153 | the loop over a website's rule ids returns the first user agent they yield |
| Navigator.AppVersion | inject/isolated.js:159-162 | a leading `Mozilla/` is removed, and the user agent is kept unchanged otherwise |
| Navigator.AppVersionOfMozilla | inject/isolated.js:159-162 | `Mozilla/` followed by any text gives back that text |
| Navigator.NavPlatform | inject/isolated.js:164-171 | `Win32`, `MacIntel`, `Linux armv7l` by first substring hit, `Linux x86_64` otherwise |
| Navigator.CheckAndApplyUserAgent | inject/isolated.js:102-192 | no preferences, and so no port write, iff no website yields a user agent; otherwise the first one with its derived `appVersion` and `platform` |
| Options.HeaderOfRow | options.js:758-778 | a row is kept iff it has a name and is a `set` with a value or a `remove`; a `remove` is stored with `''` |
| Options.HeadersOfConcat | options.js:758-780 | collecting rows keeps their order |
| Options.HeadersOfShape | options.js:758-780 | every kept header is named and a `set` with a value or a `remove` with none, and complete rows are all kept |
| Options.CollectHeaders | options.js:758-780 | the loop yields exactly the headers of the rows |
| Options.UrlsOfShape | options.js:600-605 | every kept URL is non-empty and trimmed, with JavaScript's whitespace set |
| Options.UrlsOfEmpty | options.js:600-616 | no URL is left iff every input is blank, so an input of only no-break spaces is dropped too |
| Options.CollectUrls | options.js:600-605 | the loop yields exactly the trimmed, non-empty inputs in order |
| Options.FindRule | options.js:789 | `findIndex` by id: `None` iff absent, otherwise the first index with the id |
| Options.UpsertWebsiteEffect | options.js:618-627 | adding appends; editing keeps the length and replaces only the first website with the id, or nothing |
| Options.UpsertRuleEffect | options.js:787-796 | adding appends; editing keeps the length and replaces only the first rule with the id, or nothing |
| Options.SplicedEffect | options.js:641 | deleting removes exactly the element at the index, the others keep their order, and an index past the end removes nothing |
| Options.FlipWebsiteTwice | options.js:647-651 | a toggle flips exactly one website's `enabled`, and toggling twice restores the array |
| Options.FlipRuleTwice | options.js:816-820 | a toggle flips exactly one rule's `enabled`, and toggling twice restores the array |
| Options.OptionsManager.SaveWebsite | options.js:588-632 | rejected, with nothing changed, iff no URL is left; otherwise the website is upserted |
| Options.OptionsManager.SaveRule | options.js:749-801 | rejected, with nothing changed, iff no header is left; otherwise the rule is upserted |
| Options.OptionsManager.DeleteWebsite | options.js:639-645 | a confirmed delete splices the website at the index; otherwise nothing changes |
| Options.OptionsManager.DeleteRule | options.js:808-814 | a confirmed delete splices the rule at the index; otherwise nothing changes |
| Options.OptionsManager.ToggleWebsite | options.js:647-651 | flips the `enabled` of the website at the index |
| Options.OptionsManager.ToggleRule | options.js:816-820 | flips the `enabled` of the rule at the index |
| Options.OptionsManager.ExportData | options.js:1031-1037 | the export holds the current arrays, the date and version `1.0` |
| Options.OptionsManager.ImportData | options.js:1052-1089 | rejects, before any assignment, a file that is not JSON, is `null` or lacks either array; a confirmed file leaves the arrays `ImportedArrays` gives, so a valid one replaces both |
| Options.ExportImportRoundTrip | options.js:1031-1072 | importing an export restores exactly the exported arrays |
| Options.IncompleteImportChangesNothing | options.js:1061-1063 | a file lacking either array leaves both arrays unchanged |
| Popup.HeadersTotalMatchesBuilder | popup.js:75-84 | for an enabled website the builder makes the number of URL patterns times the popup's header total; a disabled one gets none |
| Popup.PassSizeFromLines | popup.js:75-84 | the size of a pass is the running sum of those per-website figures |
| Popup.PopupManager.LoadData | popup.js:16-24 | the two arrays become what storage returned, or stay as they were when the read fails |
| Popup.PopupManager.CountRulesForWebsite | popup.js:75-84 | the sum of the header counts of the first enabled rule each id finds; dangling and disabled ids add 0 and a duplicate counts each time |
| Popup.PopupManager.RenderWebsites | popup.js:44-72 | one line per website, in order, showing `enabledRules.length`, the header total and the switch state |
| Popup.PopupManager.ApplyToggleResponse | popup.js:96-127 | on success only the first website with the id takes the new state; on failure the switch flips back and nothing changes |

## Left out

- The DOM. Rendering, modals, tabs, status banners, `escapeHtml`, the file
  input and the download link are out. Form inputs are sequences of rows,
  and `confirm()` is a `bool`.
- The chrome.* plumbing: declarativeNetRequest calls beyond "the installed
  rules", content-script registration, `notifyContentScripts` and message
  dispatch.
- `saveData` after each options edit, and the options page's own
  `loadData`: both are storage I/O.
- Real concurrency and the 100 ms `setTimeout` in `loadConfiguration`.
  Reload requests are events counted per pass.
- `Math.random` and `generateId`: they are time- and random-based. Id
  drawing is a choice of any unused id in range, and new ids are
  parameters.
- RuleCompiler.BuildDirectives: requires at most 999999 planned rules.
  Beyond that no id is free (`RuleCompiler.NoFreeIdLeft`), so the rejection
  loop of `generateUniqueId` never ends and the pass never completes; the
  model does not cover that pass.
- Navigator.GetHighEntropyValues: returns the corrected `uaFullVersion`
  (`Navigator.FullVersion`), not the `undefined.0.0.0` the code as written
  gives for a brand list of one (see "## Findings"). With two or more
  brands its contract states that both agree.
- The byte size from `Blob`/`JSON.stringify` is the abstract function
  `sizeOf`.
- The floating-point percentages of `getStorageInfo`, and the usage
  thresholds the options page shows.
- Failures of the local storage area, apart from the read of the stored
  type in `init` (storage-manager.js:27, caught at :35-39, which is the
  `InitFaults.typeReadFails` parameter): the model has every other local
  read and write succeed. That covers the marker read at :45, each
  `local.get` fallback of `get` and every `local.set`.
- A failed storage read inside the two background toggles: the model takes
  the stored list as a parameter.
- The regex URL matcher of the injection script: it relies on JavaScript
  regex semantics. It is the `matches` parameter.
- The mobile regex: it is a case-insensitive substring test over its tokens.
- `toLowerCase` beyond ASCII.
- inject/override.js and inject/main.js are not part of this model. They
  hold browser-injection details only: getters on `navigator`, the DOM port
  element and the server-timing scan.
- Options.OptionsManager.ImportData: a truthy field that is not an array is
  accepted and assigned by the code as it is. The model represents only
  arrays, missing fields and falsy fields. The `JSON.parse` error message is
  a fixed text, and so is the TypeError message for a `null` file.
- Options.OptionsManager.ToggleWebsite and ToggleRule require a valid index.
  The page only passes indices of rendered rows, and an invalid one throws.

## Findings

| source | as written | input that shows it | evidently intended | confidence | as-written member | corrected member |
|---|---|---|---|---|---|---|
| inject/isolated.js:91 | `uaFullVersion` is `brands[1]?.version + '.0.0.0' \|\| '139.0.0.0'`; the concatenation is never falsy, so the fallback is unreachable | a user agent with no `Chrome/` and no `Edg/` token, giving brands `[Not/A)Brand]`: the result is `undefined.0.0.0` | `139.0.0.0` when there is no second brand | not executed | Navigator.FullVersionAsWritten (exhibited by Navigator.FullVersionAsWrittenUndefined) | Navigator.FullVersion |
