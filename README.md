# Form History Control: context menus and the "restore editor field" submenu

This project models the menu logic of the extension's background page,
`background/contextmenu.js`, in Dafny, and proves properties about that model. It covers
the following parts:

- **The sanitiser.** `removeTagsAndShorten` turns a stored field value into a one-line
  label of at most 35 characters.
- **The two candidate queries.** Both run over the text store:
  - `getEditorFieldsByHostname` returns the host's own entries, newest first, at most
    `maxItems` of them.
  - `getEditorFieldsByLastused` returns the most recently used entries of other hosts,
    skipping keys that are already listed.
- **The restore submenu.**
  - `addNewMenuItems` creates one header per group, an `editfld<pKey>` item per
    candidate, then a separator and "More".
  - `removeCurrentMenuItems` drains `EDITOR_FIELDS_MENUITEM_IDS` and removes the same ids
    again.
- **When the submenu is rebuilt.** This covers:
  - the `CUR_MENU` guard in `updateEditorFieldRestoreMenu`;
  - the window-focus and tab-updated filters;
  - the retry decision while a tab is still loading.
- **The static menus.**
  - The contexts each value of the `prefContextmenuAvail` preference selects.
  - The rules of `browserMenusCreate` and `browserMenusRemove`: no contexts means no item;
    outside Firefox, icons are stripped and the Tools menu is skipped.
  - `browserContextMenusCreate`, which names anonymous items `noname` followed by a
    counter and tracks every id in `CONTEXT_FIELDS_MENUITEM_IDS`.
  - The rebuild in `receiveContextEvents`.
- **The click listener.** It decodes `editfld<pKey>` ids back into primary keys.

The code keeps state in globals and changes it step by step. Two classes model it:

- `Activation.RestoreMenu` holds `CUR_MENU` and `EDITOR_FIELDS_MENUITEM_IDS`.
- `Catalog.ContextMenus` holds the anonymous-id counter, `CONTEXT_FIELDS_MENUITEM_IDS` and
  the calls made to the browser.

The loops of the source are `while` loops in methods. Each method is proved against a
specification function (`HostnameQuery`, `LastusedScan`, `Layout`, `RemovalKeys`,
`Assign`). Lemmas then prove what the source promises about those functions.

The model is split into these modules:

- `Wrappers`: optional values.
- `Strings`: decimal rendering, `parseInt`, `includes`, `replace` with a string pattern,
  and the order on names.
- `Sanitize`: the sanitiser.
- `Sorting`: `Array.prototype.sort` as a stable insertion sort.
- `FieldStore`: the records and the two queries.
- `Menus`: the cross-browser create and remove wrappers.
- `Seqs`: `map` over sequences.
- `Submenu`: the restore submenu's layout and removal.
- `Activation`: the rebuild guard and the event filters.
- `Catalog`: the static menus and id tracking.
- `Clicks`: the click listener.

## Model

| member | source | states |
|---|---|---|
| Strings.IndexOf | background/contextmenu.js:124 | `includes`/`indexOf`: the result is an occurrence of the pattern, and no earlier index holds one. None means the pattern occurs nowhere. |
| Strings.ReplaceFirst | background/contextmenu.js:781 | `replace` with a string pattern replaces only the first occurrence. The text before it and after it is kept. Without an occurrence the string is unchanged. |
| Strings.NatToString | background/contextmenu.js:177 | The decimal rendering of a key is non-empty and all digits. It starts with '0' only for 0. |
| Strings.NatToStringInjective | background/contextmenu.js:177 | Distinct keys render as distinct strings. |
| Strings.ParseIntOfNatToString | background/contextmenu.js:693 | `parseInt` reads back exactly the key that was rendered. |
| Strings.ParseIntOfNonNumeric | background/contextmenu.js:693 | `parseInt` of a text that starts with a lower-case letter is NaN. |
| Strings.NameLeTotal | background/contextmenu.js:301 | The order standing for `localeCompare` is total. |
| Strings.NameLeTransitive | background/contextmenu.js:301 | The order standing for `localeCompare` is transitive. |
| Strings.NameLeAntisymmetric | background/contextmenu.js:301 | Names that sort both ways are equal. |
| Sanitize.StripTagsProperties | background/contextmenu.js:359 | After the tag pattern, no tag remains. A text without tags is unchanged. A first character other than '<' stays first. |
| Sanitize.CollapseLineBreaksProperties | background/contextmenu.js:359 | After the line-break pattern the text has no tab, CR or LF. A one-line text is unchanged. |
| Sanitize.ReplaceFirstKeepsSingleLine | background/contextmenu.js:359 | Replacing the first `&nbsp;` keeps a text on one line. |
| Sanitize.CollapseWhitespaceRunsProperties | background/contextmenu.js:359 | After the white-space pattern no two white-space characters are adjacent. A non-white first character stays. One line stays one line. A text without runs is unchanged. |
| Sanitize.TrimProperties | background/contextmenu.js:359 | `trim` leaves no white space at either end. It keeps one-line and run-free texts so, and returns an already trimmed text unchanged. |
| Sanitize.CleanedProperties | background/contextmenu.js:359 | The cleaned value is one line, has no white-space runs and is trimmed. |
| Sanitize.Shorten | background/contextmenu.js:360-362 | At most 35 characters. A value of 35 or fewer is unchanged. A longer one becomes its first 32 characters followed by "...". |
| Sanitize.RemoveTagsAndShorten | background/contextmenu.js:357-364 | The label is one line and at most 35 characters long. It is empty exactly when nothing is left of the value after cleaning. |
| Sanitize.CleanValueKept | background/contextmenu.js:357-364 | A value that is already clean passes through unchanged. If longer than 35 characters, it is cut to 32 followed by "...". |
| Sorting.SortBy | background/contextmenu.js:297-302 | The sort returns a permutation of its input. |
| Sorting.SortBySorted | background/contextmenu.js:297-302 | With a consistent comparator the result is ordered by it and is a permutation of the input. |
| FieldStore.HostIndex | background/contextmenu.js:270-273 | The host index opened on one key yields exactly the records of that host. |
| FieldStore.HostnameItemsMembers | background/contextmenu.js:281-291 | The cursor loop collects exactly the records that are not of type `input` and have a non-empty sanitised value, tagged 'hostname'. |
| FieldStore.HostnameOrderIsTotalPreorder | background/contextmenu.js:297-302 | The comparator (later `last` first, then by name) is total and transitive. |
| FieldStore.GetEditorFieldsByHostname | background/contextmenu.js:262-313 | The cursor loop, sort and truncation compute the host query. |
| FieldStore.HostnameQuerySound | background/contextmenu.js:262-313 | An empty hostname gives an empty list. Otherwise there are at most `maxItems` results, ordered newest first with ties by name. Each result is a non-`input` record of the host with a non-empty label of at most 35 characters, tagged 'hostname'. |
| FieldStore.HostnameQueryComplete | background/contextmenu.js:281-305 | An offerable record of the host is either in the result, or the result is full and every item in it sorts no later than that record. |
| FieldStore.GetEditorFieldsByLastused | background/contextmenu.js:315-355 | The walk over the `last` index, newest first, computes the last-used query. |
| FieldStore.WalkLastIndex | background/contextmenu.js:322-349 | The `onsuccess` loop stops when the cursor ends or `maxItems` are taken. It takes exactly what the scan takes. |
| FieldStore.LastusedScanSound | background/contextmenu.js:324-341 | At most `budget` items. Each is a non-`input` record of another host with a non-empty label, its key not in `excludeItems`, tagged 'lastused'. |
| FieldStore.LastusedScanOrdered | background/contextmenu.js:321-344 | On a cursor in descending `last`, the items come out newest first. |
| FieldStore.LastusedScanComplete | background/contextmenu.js:324-348 | The walk returns fewer than `budget` items only when it took every acceptable record. |
| FieldStore.LastusedScanSkipped | background/contextmenu.js:324-345 | On a cursor by descending `last`, an accepted record the walk leaves out was cut by the early stop. The result is full, and the record is no more recent than the last item taken. |
| FieldStore.LastusedQueryProperties | background/contextmenu.js:315-355 | The last-used query returns at most `maxItems` items, newest first. Each is an accepted record of another host whose key is not excluded. Short of `maxItems`, nothing acceptable was left out. An accepted record that was left out is no more recent than the last item of the full result. |
| Menus.BrowserMenusCreate | background/contextmenu.js:792-816 | No call without contexts. Outside Firefox, no call for the Tools menu. The API depends on the platform. Icons are kept on Firefox only. No other property changes. |
| Menus.BrowserMenusRemove | background/contextmenu.js:830-835 | The remove call keeps the id and goes to the platform's menus API. Its partner is Menus.RemoveMatchesCreate. |
| Menus.RemoveMatchesCreate | background/contextmenu.js:792-835 | An item that is created is removed, by its own id, through the same API that created it. |
| Menus.CreateAllMembers | background/contextmenu.js:792-816 | Every create call that is made comes from one of the items. |
| Menus.CreateAllOnFirefox | background/contextmenu.js:793-795 | On Firefox every item with a context reaches `browser.menus` unchanged, in order. |
| Menus.CreateAllSkipsToolsMenu | background/contextmenu.js:800-812 | Outside Firefox no Tools-menu item reaches the browser. |
| Submenu.IdStringInjective | background/contextmenu.js:173-186 | Headers, entries, the separator and "More" get pairwise distinct id strings. |
| Submenu.PropsOfItem | background/contextmenu.js:197-229 | Each submenu item hangs under `restoreEditorField` in every context, so it is created on every platform. Headers are disabled and have no icon. Entries carry the fill icon and "More" the extension's icon. |
| Submenu.AddCandidateItems | background/contextmenu.js:163-178 | One turn of the `forEach`: the group's header if the group has none yet, then the entry. The group's flag comes back set. |
| Submenu.LayoutProps | background/contextmenu.js:181-188 | The separator and "More" close the layout exactly when the list is non-empty. |
| Submenu.AddNewMenuItems | background/contextmenu.js:155-195 | The creations are exactly the layout's items, in order. |
| Submenu.AddedCount | background/contextmenu.js:162-179 | Each id is created as often as the candidates call for: one header per group present and one entry per candidate. |
| Submenu.RemovalCount | background/contextmenu.js:243-253 | The pop loop removes each id as often as the candidates call for. |
| Submenu.LayoutCount | background/contextmenu.js:162-188 | Per-id counts of the created layout, the closing pair included. |
| Submenu.RemovalKeysCount | background/contextmenu.js:238-253 | Per-id counts of the removed ids, the closing pair included. |
| Submenu.RemovalMatchesLayout | background/contextmenu.js:231-260 | The ids removed for a list are the ids created for it, counted with multiplicity, both as ids and as strings. |
| Submenu.LayoutKeyCounts | background/contextmenu.js:162-188 | A group's header appears once if the group has a candidate, otherwise never. The separator and "More" appear once if and only if the list is non-empty. `editfld<pKey>` appears once per candidate with that key. |
| Submenu.LayoutEntries | background/contextmenu.js:176-178 | The entries of the layout are the candidates, in list order. |
| Submenu.NoHeaderOfFlagged | background/contextmenu.js:163 | No header is created for a group already flagged as added. |
| Submenu.HeaderBeforeFirst | background/contextmenu.js:162-178 | A group's header sits immediately before the group's first entry, and no item of that group comes before it. |
| Activation.ActiveTabRequestsMembers | background/contextmenu.js:69-81 | One update request per active tab of the window, and no other. |
| Activation.HandleWindowFocusChanged | background/contextmenu.js:83-88 | No update for a window id that is not positive. Otherwise one update per active tab. |
| Activation.HandleTabUpdated | background/contextmenu.js:90-94 | Nothing unless the status is "complete". Then an update goes out exactly when some report needs no retry. |
| Activation.ResolveMeaning | background/contextmenu.js:102-115 | The update goes out exactly when some report needs no retry, and it is for the first such report. |
| Activation.BlankTabGivesUp | background/contextmenu.js:105 | A tab that stays `about:blank` without loading gets its update after the tenth attempt. |
| Activation.LoadingTabWaits | background/contextmenu.js:105 | A tab that keeps reporting 'loading' never gets its update: these retries have no bound. |
| Activation.RefreshedGroups | background/contextmenu.js:138-147 | After a refresh the list holds the host's group, then the last-used group, each at most 10 items. |
| Activation.RefreshedDisjoint | background/contextmenu.js:138-147 | No primary key appears in both groups. |
| Activation.RefreshedLabels | background/contextmenu.js:138-147 | Every tracked candidate has a non-empty one-line label of at most 35 characters. |
| Activation.RestoreMenu.constructor | background/contextmenu.js:39-43 | `CUR_MENU` starts as (-1, -1, ''), and the tracked list starts empty. |
| Activation.RestoreMenu.RemoveCurrentMenuItems | background/contextmenu.js:231-260 | The tracked list ends empty. The removed id strings are those of the removal, in call order. `CUR_MENU` is unchanged. |
| Activation.RestoreMenu.PushAll | background/contextmenu.js:142 | The items are appended to the tracked list in order. |
| Activation.RestoreMenu.Rebuild | background/contextmenu.js:138-151 | The old items are removed. The tracked list becomes the host query followed by the last-used query. The new layout is created. |
| Activation.RestoreMenu.UpdateEditorFieldRestoreMenu | background/contextmenu.js:122-152 | An extension page, or the triple already in `CUR_MENU`, changes nothing and makes no calls. Otherwise `CUR_MENU` becomes the new triple and the submenu is rebuilt. |
| Activation.RemovedMatchesCreated | background/contextmenu.js:138-150 | A refresh removes exactly the id strings the previous build created, counted with multiplicity. |
| Catalog.ContextsForProperties | background/contextmenu.js:428-446 | 'page' shows the menu everywhere. 'editfields' adds the editable context. Any other value keeps the frame, browser-action and page-action contexts and leaves the narrow lists empty. The browser-action list is `browser_action` followed by the narrow list. |
| Catalog.ContextMenuAnonymousAreSeparators | background/contextmenu.js:448-574 | In the context menu exactly the separators have no id. |
| Catalog.BrowserActionAnonymousAreSeparators | background/contextmenu.js:576-666 | In the browser-action submenu exactly the separators have no id. |
| Catalog.ToolsMenuOnFirefoxOnly | background/contextmenu.js:387-420 | The Tools menu is created on Firefox only, and there all three items are created unchanged. |
| Catalog.AnonIdInjective | background/contextmenu.js:820 | Distinct counter values give distinct `noname` ids. |
| Catalog.Named | background/contextmenu.js:819-821 | An item with an id keeps it. An item without one gets an id that no counter value up to the current one named. No id is left empty, and nothing else about the item changes. |
| Catalog.AssignAt | background/contextmenu.js:818-822 | In a run of creations, each item is named with the counter the earlier items left. |
| Catalog.AssignAnonDistinct | background/contextmenu.js:819-820 | Anonymous ids handed out in one run are pairwise distinct. |
| Catalog.AssignAnonInRange | background/contextmenu.js:819-820 | Each anonymous id of a run is numbered above the starting counter, and at most as far as the number of anonymous items. |
| Catalog.LaterAnonIdsAreFresh | background/contextmenu.js:819-820 | Anonymous ids of a later run never repeat those of an earlier run. |
| Catalog.ContextlessItemsTrackedNotCreated | background/contextmenu.js:818-824 | An item without contexts is tracked, under its assigned id, but never created. |
| Catalog.ContextMenus.constructor | background/contextmenu.js:119-120 | The counter starts at 10000, and nothing is tracked or created yet. |
| Catalog.ContextMenus.BrowserContextMenusCreate | background/contextmenu.js:818-824 | The counter rises by one exactly for an item without an id. The item's id, assigned if needed, is appended to the tracked ids, and its create call, if any, is made. |
| Catalog.ContextMenus.CreateEach | background/contextmenu.js:818-824 | A run of creations raises the counter by the number of anonymous items, tracks the assigned ids in order and makes their create calls. |
| Catalog.ContextMenus.InitContextMenu | background/contextmenu.js:422-574 | The tracked ids are emptied, then the context menu's items are created and tracked for the preference. |
| Catalog.ContextMenus.InitBrowserActionSubmenu | background/contextmenu.js:576-666 | The browser-action items are created and their ids are tracked after the others. |
| Catalog.ContextMenus.InitToolsMenu | background/contextmenu.js:387-420 | The Tools items are created directly: no counter is used and nothing is tracked. |
| Catalog.ContextMenus.InitTrackedMenus | background/contextmenu.js:382-383 | After both tracked menus are built, the counter and the tracked ids are those of a fresh build. The create calls made are the context menu's items and then the browser-action items, named from the counter in that order. |
| Catalog.ContextMenus.InitBrowserMenus | background/contextmenu.js:375-385 | The create calls are the Tools menu's, then those of both tracked menus. The counter and tracked ids are those of a fresh build, and nothing is removed. |
| Catalog.ContextMenus.RemoveTracked | background/contextmenu.js:21-24 | Every tracked id is removed, the last one first, and the list ends empty. |
| Catalog.ContextMenus.ReceiveContextEvents | background/contextmenu.js:17-34 | On the preference-changed message (888), every tracked id is removed, last one first. Then both tracked menus are built again for the stored preference: the create calls, the counter and the tracked ids are those of a fresh build. Any other message changes nothing. |
| Catalog.BuildCreatesOnlyTracked | background/contextmenu.js:818-824 | Every item that a build of the tracked menus creates has its id among the tracked ids, so the removal on the next preference change takes it away again. |
| Clicks.EditfldDispatch | background/contextmenu.js:725-786 | For the listener as written, an id starting with 'e' opens the manager if it is "editfldMore". Otherwise it reaches the database if it starts with "editfld", and does nothing if not. |
| Clicks.RestoreOnlyForEditfld | background/contextmenu.js:779-783 | In the listener as written, the database is reached for exactly the "editfld" ids other than "editfldMore", with the decoded key. |
| Clicks.ReplacePrefix | background/contextmenu.js:781 | Removing the first "editfld" from an id that starts with it leaves what followed the prefix. |
| Clicks.DecodeEntryId | background/contextmenu.js:693 | The key decoded from an entry's id is the entry's key. |
| Clicks.EntryClickRestoresRecord | background/contextmenu.js:779-783 | In the listener as written, clicking a record's entry restores exactly that record: the id encoding round-trips. |
| Clicks.DecodeHeaderId | background/contextmenu.js:693 | A header's id decodes to NaN. |
| Clicks.HeaderClickFindsNothing | background/contextmenu.js:779-783 | In the listener as written, a click on a header id would look up NaN. |
| Clicks.MoreOpensManager | background/contextmenu.js:755-757 | In the listener as written, "More" opens the history manager. |
| Clicks.ClearFieldsPAIgnored | background/contextmenu.js:725-786 | The browser-action item "clearFieldsPA" is created and clickable, yet the listener as written does nothing for it. |
| Clicks.CorrectionOnlyClearFieldsPA | background/contextmenu.js:725-786 | The corrected listener agrees with the one as written on every id except "clearFieldsPA", which it sends to clearFields. So the facts above hold for both listeners. |
| Clicks.ContextMenuItemsHandled | background/contextmenu.js:725-786 | In the listener as written, every clickable item of the context menu starts an action. |
| Clicks.BrowserActionItemsHandled | background/contextmenu.js:725-786 | With the corrected listener, every clickable browser-action item starts an action. |
| Clicks.ToolsMenuItemsHandled | background/contextmenu.js:725-786 | In the listener as written, every clickable item of the Tools menu starts an action. |

## Left out

- Timers are not modelled: the `debounce` wrapper (lines 48-55), the 1500 ms start-up
  update (59) and the 500 ms re-scheduling of a retry (107-109). The retries are a
  sequence of successive `tabs.get` reports, and a debounced call is one call.
- IndexedDB is an in-memory sequence of records:
  - the host index is a filter of that sequence;
  - the `last` index walked backwards is that sequence sorted by descending `last`, ties by
    descending key;
  - `onerror` paths are not modelled.
- The browser's menus API is not modelled: create and remove calls are recorded rather
  than carried out. `tabs.get`, `windows.getCurrent`, `storage.local` and `tabs.sendMessage`
  become parameters or `Action` values.
- The model assumes every remove and create call succeeds, and runs each promise chain to
  completion in order. In the source a single failed call has further effects, which the
  model does not capture:
  - A failed removal rejects `removeCurrentMenuItems` (lines 255-258). The chain in
    `updateEditorFieldRestoreMenu` (138-151) has no rejection handler, so the two queries
    and `addNewMenuItems` are skipped.
  - By then `CUR_MENU` already holds the new triple (134-136) and the tracked list is
    drained. Later calls for the same triple stop at the guard (130), so the submenu stays
    empty until the triple changes.
  - A failed removal in `receiveContextEvents` (21-25) skips the rebuild of both tracked
    menus.
- `MiscUtil.getHostnameFromUrlString` is a function parameter. `DateUtil`, `i18n` titles and
  icon paths are symbolic values. `WindowUtil.createOrFocusWindow` is an `OpenWindow` action.
- `getSingleElementByPrimaryKeyAndNotify` (687-720) is modelled only up to the decoded key.
  Its database lookup and message are out of scope.
- `initShortcutKeys` and `handleShortcutKeys` are not part of this model. They are settings
  plumbing outside the menus.
- Strings.NameLeTotal: `localeCompare` is replaced by code-point lexicographic order. The
  locale's collation is not modelled.
- Sanitize.RemoveTagsAndShorten: lengths count characters, not UTF-16 code units.
- FieldStore.HostnameQuery: for an empty hostname the source resolves `[]` but still opens
  the cursor on that key. It can then grow and sort the already resolved array in place.
  The model returns `[]` and does not capture that aliasing.
- Activation.RestoreMenu.Rebuild: the concurrency of overlapping rebuilds is not modelled.
  Each rebuild runs to completion before the next starts.
- Catalog.ContextMenus.ReceiveContextEvents: the stored preference is a parameter, read once.
- Catalog.ContextMenus.ReceiveContextEvents: the model keeps the static menus apart from the
  restore submenu, and gives the menus API no parent/child relation. So it does not capture
  what a preference change does to the submenu:
  - The pop loop (lines 21-24) removes "restoreEditorField", the parent of every restore
    item (line 214), and the browser drops those children with it.
  - `EDITOR_FIELDS_MENUITEM_IDS` and `CUR_MENU` are left as they were, so the re-created
    parent stays empty until the (window, tab, host) triple changes.
  - The next refresh then removes ids that already went with their parent, and those
    removals fail as described above.
- Activation.RemovedMatchesCreated: it relates one build to the next refresh only when no
  preference change came between them.
- FieldStore.Store: the records are taken to be in primary-key order with unique keys, as
  the object store keeps them. The model does not enforce this. The host index yields
  records in the sequence's order, which fixes the stable sort's order among ties and so
  which tied items the truncation keeps.

## Findings

| source | as written | input that shows it | evidently intended | confidence | as-written member | corrected member |
|---|---|---|---|---|---|---|
| background/contextmenu.js:725-786 | The listener's `switch` has no case for the browser-action item "clearFieldsPA", created at lines 591-600. A click falls through to `default`, which ignores ids without the "editfld" prefix. | `menuItemId` = "clearFieldsPA" | Clearing the form fields, like the context-menu item "clearFields" it duplicates | medium; not executed | Clicks.ClearFieldsPAIgnored | Clicks.BrowserActionItemsHandled |
