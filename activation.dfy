/**
 * When the restore submenu is rebuilt: the event filters, the retry decision while a tab
 * is still loading, and the CUR_MENU guard around updateEditorFieldRestoreMenu, which
 * drains the tracked candidates, queries the store again and creates the new items.
 *
 * The tracked state (CUR_MENU and EDITOR_FIELDS_MENUITEM_IDS) lives in a RestoreMenu
 * object. Calls that reach the browser are returned as the id strings removed and the
 * properties created, in call order.
 */
module Activation {
  import opened Wrappers
  import opened Strings
  import opened Sanitize
  import opened FieldStore
  import opened Seqs
  import opened Menus
  import opened Submenu

  /** How many candidates each query contributes. */
  const MAX_ITEMS_PER_QUERY := 10
  /** URLs of the extension's own pages, which never get a submenu. */
  const EXTENSION_URL_MARK := "moz-extension://"
  const ABOUT_BLANK := "about:blank"
  /** The last attempt at which an about:blank tab is still waited for. */
  const MAX_BLANK_ATTEMPT := 10

  // ---------------------------------------------------------------------------
  // Event filters

  /** handleWindowFocusChanged acts only for a real window (not WINDOW_ID_NONE). */
  predicate FocusChangeActs(windowId: int)
  {
    windowId > 0
  }

  /** handleTabUpdated acts only once the tab reports that loading is complete. */
  predicate TabUpdatedActs(status: string)
  {
    status == "complete"
  }

  /** What tabs.get and windows.getCurrent report about a tab. */
  datatype TabInfo = TabInfo(windowId: int, id: int, url: string, status: string, active: bool)

  /** A call of the (debounced) updateEditorFieldRestoreMenu. */
  datatype UpdateRequest = UpdateRequest(windowId: int, tabId: int, url: string)

  function RequestFor(tab: TabInfo): UpdateRequest
  {
    UpdateRequest(tab.windowId, tab.id, tab.url)
  }

  /** updateEditorFieldRestoreMenuForActiveTab: one update for each active tab of the window, in order. */
  function ActiveTabRequests(tabs: seq<TabInfo>): (r: seq<UpdateRequest>)
    decreases |tabs|
  {
    if tabs == [] then []
    else (if tabs[0].active then [RequestFor(tabs[0])] else []) + ActiveTabRequests(tabs[1..])
  }

  lemma {:induction false} ActiveTabRequestsMembers(tabs: seq<TabInfo>)
    ensures forall q :: q in ActiveTabRequests(tabs) <==> exists t :: t in tabs && t.active && q == RequestFor(t)
    ensures |ActiveTabRequests(tabs)| <= |tabs|
    decreases |tabs|
  {
    if tabs != [] {
      ActiveTabRequestsMembers(tabs[1..]);
      assert tabs == [tabs[0]] + tabs[1..];
    }
  }

  // ---------------------------------------------------------------------------
  // Waiting for a tab to finish loading

  /** The tab is looked at again in 500 ms: still loading, or blank up to the tenth attempt. */
  predicate ShouldRetry(tab: TabInfo, attempt: int)
  {
    tab.status == "loading" || (tab.url == ABOUT_BLANK && attempt <= MAX_BLANK_ATTEMPT)
  }

  /**
   * updateEditorFieldRestoreMenuOnTabActivation followed through its retries: obs[i] is
   * what tabs.get reports at attempt `attempt + i`. None: still waiting after the last report.
   */
  function Resolve(obs: seq<TabInfo>, attempt: int): Option<UpdateRequest>
    decreases |obs|
  {
    if obs == [] then None
    else if ShouldRetry(obs[0], attempt) then Resolve(obs[1..], attempt + 1)
    else Some(RequestFor(obs[0]))
  }

  /** The update goes out for the first report that needs no retry, and only then. */
  lemma {:induction false} ResolveMeaning(obs: seq<TabInfo>, attempt: int)
    ensures Resolve(obs, attempt).Some? <==> exists i :: 0 <= i < |obs| && !ShouldRetry(obs[i], attempt + i)
    ensures forall i :: 0 <= i < |obs| && !ShouldRetry(obs[i], attempt + i) ==>
      (forall j :: 0 <= j < i ==> ShouldRetry(obs[j], attempt + j)) ==> Resolve(obs, attempt) == Some(RequestFor(obs[i]))
    decreases |obs|
  {
    if obs != [] {
      ResolveMeaning(obs[1..], attempt + 1);
      forall i | 1 <= i < |obs| ensures obs[1..][i - 1] == obs[i] && attempt + 1 + (i - 1) == attempt + i {
      }
      if ShouldRetry(obs[0], attempt) {
        if Resolve(obs, attempt).Some? {
          var k :| 0 <= k < |obs[1..]| && !ShouldRetry(obs[1..][k], attempt + 1 + k);
          assert !ShouldRetry(obs[k + 1], attempt + (k + 1));
        }
      }
    }
  }

  /** A tab that stays about:blank is given up on after the tenth attempt: the update then goes out. */
  lemma {:induction false} BlankTabGivesUp(obs: seq<TabInfo>, attempt: int)
    requires attempt >= 1
    requires |obs| > MAX_BLANK_ATTEMPT
    requires forall i :: 0 <= i < |obs| ==> obs[i].status != "loading"
    ensures Resolve(obs, attempt).Some?
  {
    ResolveMeaning(obs, attempt);
    assert !ShouldRetry(obs[MAX_BLANK_ATTEMPT], attempt + MAX_BLANK_ATTEMPT);
  }

  /** Retrying while loading has no bound: a tab that keeps loading never gets its update. */
  lemma {:induction false} LoadingTabWaits(obs: seq<TabInfo>, attempt: int)
    requires forall i :: 0 <= i < |obs| ==> obs[i].status == "loading"
    ensures Resolve(obs, attempt) == None
  {
    ResolveMeaning(obs, attempt);
  }

  /** handleWindowFocusChanged: an update for each active tab of the focused window; nothing for WINDOW_ID_NONE. */
  function HandleWindowFocusChanged(windowId: int, tabs: seq<TabInfo>): (r: seq<UpdateRequest>)
    ensures windowId <= 0 ==> r == []
    ensures windowId > 0 ==> forall q :: q in r <==> exists t :: t in tabs && t.active && q == RequestFor(t)
  {
    ActiveTabRequestsMembers(tabs);
    if FocusChangeActs(windowId) then ActiveTabRequests(tabs) else []
  }

  /**
   * handleTabUpdated: once loading is complete the tab is followed from the first attempt,
   * and the update goes out for the first report that needs no retry; any other status does nothing.
   */
  function HandleTabUpdated(status: string, obs: seq<TabInfo>): (r: Option<UpdateRequest>)
    ensures status != "complete" ==> r == None
    ensures status == "complete" ==> (r.Some? <==> exists i :: 0 <= i < |obs| && !ShouldRetry(obs[i], 1 + i))
  {
    ResolveMeaning(obs, 1);
    if TabUpdatedActs(status) then Resolve(obs, 1) else None
  }

  // ---------------------------------------------------------------------------
  // The rebuilt candidate list

  /** The candidates after a refresh: the host's own entries, then recent entries of other hosts. */
  function RefreshedItems(store: Store, hostname: string): seq<EditorField>
  {
    var hostnameItems := HostnameQuery(store, hostname, MAX_ITEMS_PER_QUERY);
    hostnameItems + LastusedQuery(store, hostname, MAX_ITEMS_PER_QUERY, hostnameItems)
  }

  /** At most ten candidates per group, the host's group first. */
  lemma RefreshedGroups(store: Store, hostname: string)
    ensures |RefreshedItems(store, hostname)| <= 2 * MAX_ITEMS_PER_QUERY
    ensures var h := HostnameQuery(store, hostname, MAX_ITEMS_PER_QUERY);
      && h == RefreshedItems(store, hostname)[..|h|]
      && (forall i :: 0 <= i < |h| ==> RefreshedItems(store, hostname)[i].kind == Hostname)
      && (forall i :: |h| <= i < |RefreshedItems(store, hostname)| ==> RefreshedItems(store, hostname)[i].kind == Lastused)
  {
    var h := HostnameQuery(store, hostname, MAX_ITEMS_PER_QUERY);
    var l := LastusedQuery(store, hostname, MAX_ITEMS_PER_QUERY, h);
    var r := h + l;
    HostnameQuerySound(store, hostname, MAX_ITEMS_PER_QUERY);
    LastusedQueryProperties(store, hostname, MAX_ITEMS_PER_QUERY, h);
    assert r[..|h|] == h;
    forall i | |h| <= i < |r| ensures r[i].kind == Lastused {
      assert r[i] == l[i - |h|];
      assert l[i - |h|] in l;
    }
    forall i | 0 <= i < |h| ensures r[i].kind == Hostname {
      assert r[i] == h[i];
      assert h[i] in h;
    }
  }

  /** No primary key is offered in both groups: the last-used query skips the host's entries. */
  lemma RefreshedDisjoint(store: Store, hostname: string)
    ensures var r := RefreshedItems(store, hostname);
      forall i, j :: 0 <= i < |r| && 0 <= j < |r| && r[i].kind == Hostname && r[j].kind == Lastused ==> r[i].pKey != r[j].pKey
  {
    var h := HostnameQuery(store, hostname, MAX_ITEMS_PER_QUERY);
    var l := LastusedQuery(store, hostname, MAX_ITEMS_PER_QUERY, h);
    var r := h + l;
    RefreshedGroups(store, hostname);
    LastusedQueryProperties(store, hostname, MAX_ITEMS_PER_QUERY, h);
    forall i, j | 0 <= i < |r| && 0 <= j < |r| && r[i].kind == Hostname && r[j].kind == Lastused
      ensures r[i].pKey != r[j].pKey
    {
      assert i < |h| <= j;
      assert r[i] == h[i] && h[i] in h;
      assert r[j] == l[j - |h|] && l[j - |h|] in l;
      assert !Excluded(h, r[j].pKey);
    }
  }

  /** What a submenu label needs: not blank, at most MAX_LENGTH_EDITFIELD_ITEM long, one line. */
  predicate Labelled(e: EditorField)
  {
    e.value != "" && |e.value| <= MAX_LENGTH_EDITFIELD_ITEM && SingleLine(e.value)
  }

  /** Every candidate of the host query can be shown as a label. */
  lemma HostnameLabels(store: Store, hostname: string)
    ensures forall e :: e in HostnameQuery(store, hostname, MAX_ITEMS_PER_QUERY) ==> Labelled(e)
  {
    HostnameQuerySound(store, hostname, MAX_ITEMS_PER_QUERY);
    forall e | e in HostnameQuery(store, hostname, MAX_ITEMS_PER_QUERY) ensures Labelled(e) {
      var rec :| rec in store.records && rec.host == hostname && Offerable(rec) && e == AsEditorField(Hostname, rec);
      assert e.value == RemoveTagsAndShorten(rec.value);
    }
  }

  /** Every candidate of the last-used query can be shown as a label. */
  lemma LastusedLabels(store: Store, hostname: string, excludeItems: seq<EditorField>)
    ensures forall e :: e in LastusedQuery(store, hostname, MAX_ITEMS_PER_QUERY, excludeItems) ==> Labelled(e)
  {
    LastusedQueryProperties(store, hostname, MAX_ITEMS_PER_QUERY, excludeItems);
    forall e | e in LastusedQuery(store, hostname, MAX_ITEMS_PER_QUERY, excludeItems) ensures Labelled(e) {
      var rec :| rec in store.records && AcceptedLastused(rec, hostname, excludeItems) && e == AsEditorField(Lastused, rec);
      assert e.value == RemoveTagsAndShorten(rec.value);
    }
  }

  /** Every label shown is non-empty, one line, and at most 35 characters long. */
  lemma RefreshedLabels(store: Store, hostname: string)
    ensures var r := RefreshedItems(store, hostname);
      forall i :: 0 <= i < |r| ==> r[i].value != "" && |r[i].value| <= MAX_LENGTH_EDITFIELD_ITEM && SingleLine(r[i].value)
  {
    var h := HostnameQuery(store, hostname, MAX_ITEMS_PER_QUERY);
    var l := LastusedQuery(store, hostname, MAX_ITEMS_PER_QUERY, h);
    var r := h + l;
    HostnameLabels(store, hostname);
    LastusedLabels(store, hostname, h);
    forall i | 0 <= i < |r| ensures Labelled(r[i]) {
      if i < |h| {
        assert r[i] == h[i] && h[i] in h;
      } else {
        assert r[i] == l[i - |h|] && l[i - |h|] in l;
      }
    }
  }

  // ---------------------------------------------------------------------------
  // CUR_MENU and EDITOR_FIELDS_MENUITEM_IDS

  /** The id strings removed first for a non-empty list: the separator and "More". */
  lemma TrailerIdStrings(s: seq<EditorField>)
    ensures Map(IdString, TrailerIds(s)) == if |s| > 0 then [MORE_SEPARATOR_ID, MORE_ID] else []
  {
    if |s| > 0 {
      MapSnoc(IdString, [], MoreSeparatorId);
      assert [] + [MoreSeparatorId] == [MoreSeparatorId];
      MapSnoc(IdString, [MoreSeparatorId], MoreId);
      assert TrailerIds(s) == [MoreSeparatorId] + [MoreId];
    } else {
      assert Map(IdString, TrailerIds(s)) == [];
    }
  }

  /** One turn of the pop loop keeps the ids removed so far plus those still to come equal to the whole removal. */
  lemma RemovalStep(s: seq<EditorField>, hostnameDeleted: bool, lastusedDeleted: bool, ids: seq<ItemId>, all: seq<ItemId>)
    requires s != [] && ids + Removal(s, hostnameDeleted, lastusedDeleted) == all
    ensures var e := s[|s| - 1];
      (ids + RemovedHeader(e, hostnameDeleted, lastusedDeleted) + [EntryOf(e.pKey)])
        + Removal(s[..|s| - 1], hostnameDeleted || e.kind == Hostname, lastusedDeleted || e.kind == Lastused)
      == all
  {
    var e := s[|s| - 1];
    var header := RemovedHeader(e, hostnameDeleted, lastusedDeleted);
    var rest := Removal(s[..|s| - 1], hostnameDeleted || e.kind == Hostname, lastusedDeleted || e.kind == Lastused);
    assert Removal(s, hostnameDeleted, lastusedDeleted) == header + [EntryOf(e.pKey)] + rest;
    MoveFront(ids, header + [EntryOf(e.pKey)], rest);
    MoveFront(ids, header, [EntryOf(e.pKey)]);
  }

  class RestoreMenu {
    /** CUR_MENU: the window, tab and host the submenu was last built for. */
    var curWindowId: int
    var curTabId: int
    var curHost: string
    /** EDITOR_FIELDS_MENUITEM_IDS: the candidates whose items are in the submenu. */
    var menuItemIds: seq<EditorField>

    constructor ()
      ensures curWindowId == -1 && curTabId == -1 && curHost == "" && menuItemIds == []
    {
      curWindowId := -1;
      curTabId := -1;
      curHost := "";
      menuItemIds := [];
    }

    /**
     * removeCurrentMenuItems: the separator and "More" first, then the tracked candidates
     * are popped, last one first, removing a group's header with the first of its
     * candidates popped and each candidate's entry; the list is left empty.
     */
    method RemoveCurrentMenuItems() returns (removed: seq<string>)
      modifies this
      ensures menuItemIds == []
      ensures removed == Map(IdString, RemovalKeys(old(menuItemIds)))
      ensures curWindowId == old(curWindowId) && curTabId == old(curTabId) && curHost == old(curHost)
    {
      ghost var all := RemovalKeys(menuItemIds);
      var hostnameMenuDeleted := false;
      var lastusedMenuDeleted := false;
      removed := [];
      TrailerIdStrings(menuItemIds);
      if |menuItemIds| > 0 {
        removed := removed + [MORE_SEPARATOR_ID];
        removed := removed + [MORE_ID];
      }
      ghost var ids := TrailerIds(menuItemIds);
      while |menuItemIds| > 0
        invariant ids + Removal(menuItemIds, hostnameMenuDeleted, lastusedMenuDeleted) == all
        invariant removed == Map(IdString, ids)
        invariant curWindowId == old(curWindowId) && curTabId == old(curTabId) && curHost == old(curHost)
        decreases |menuItemIds|
      {
        var item := menuItemIds[|menuItemIds| - 1];
        ghost var idsBefore := ids;
        ghost var header := RemovedHeader(item, hostnameMenuDeleted, lastusedMenuDeleted);
        RemovalStep(menuItemIds, hostnameMenuDeleted, lastusedMenuDeleted, ids, all);
        menuItemIds := menuItemIds[..|menuItemIds| - 1];
        if item.kind == Hostname && !hostnameMenuDeleted {
          hostnameMenuDeleted := true;
          MapSnoc(IdString, ids, HeaderOf(item.kind));
          removed := removed + [ID_PREFIX + KindName(item.kind)];
          ids := ids + [HeaderOf(item.kind)];
          assert ids == idsBefore + header;
        } else if item.kind == Lastused && !lastusedMenuDeleted {
          lastusedMenuDeleted := true;
          MapSnoc(IdString, ids, HeaderOf(item.kind));
          removed := removed + [ID_PREFIX + KindName(item.kind)];
          ids := ids + [HeaderOf(item.kind)];
          assert ids == idsBefore + header;
        } else {
          assert header == [];
          assert ids == idsBefore + header;
        }
        MapSnoc(IdString, ids, EntryOf(item.pKey));
        removed := removed + [ID_PREFIX + NatToString(item.pKey)];
        ids := ids + [EntryOf(item.pKey)];
      }
      assert ids == all;
    }

    /** The forEach that pushes query results onto EDITOR_FIELDS_MENUITEM_IDS. */
    method PushAll(items: seq<EditorField>)
      modifies this
      ensures menuItemIds == old(menuItemIds) + items
      ensures curWindowId == old(curWindowId) && curTabId == old(curTabId) && curHost == old(curHost)
    {
      var i := 0;
      while i < |items|
        invariant 0 <= i <= |items|
        invariant menuItemIds == old(menuItemIds) + items[..i]
        invariant curWindowId == old(curWindowId) && curTabId == old(curTabId) && curHost == old(curHost)
      {
        menuItemIds := menuItemIds + [items[i]];
        assert items[..i + 1] == items[..i] + [items[i]];
        i := i + 1;
      }
      assert items[..i] == items;
    }

    /**
     * The promise chain of updateEditorFieldRestoreMenu once CUR_MENU is set: the old items
     * are removed, the host's entries and then recent entries of other hosts become the
     * tracked candidates, and their items are created.
     */
    method Rebuild(store: Store, hostname: string) returns (removed: seq<string>, created: seq<MenuProps>)
      modifies this
      ensures menuItemIds == RefreshedItems(store, hostname)
      ensures removed == Map(IdString, RemovalKeys(old(menuItemIds)))
      ensures created == Map(Props, Layout(menuItemIds))
      ensures curWindowId == old(curWindowId) && curTabId == old(curTabId) && curHost == old(curHost)
    {
      removed := RemoveCurrentMenuItems();
      var hostnameItemsArray := GetEditorFieldsByHostname(store, hostname, MAX_ITEMS_PER_QUERY);
      PushAll(hostnameItemsArray);
      assert menuItemIds == hostnameItemsArray;
      var lastusedItemsArray := GetEditorFieldsByLastused(store, hostname, MAX_ITEMS_PER_QUERY, hostnameItemsArray);
      PushAll(lastusedItemsArray);
      created := AddNewMenuItems(menuItemIds);
    }

    /** CUR_MENU names window, tab and host. */
    predicate IsCurrent(windowId: int, tabId: int, host: string)
      reads this
    {
      curWindowId == windowId && curTabId == tabId && curHost == host
    }

    /**
     * updateEditorFieldRestoreMenu: nothing happens for the extension's own pages or when
     * window, tab and host are those of the current submenu; otherwise CUR_MENU takes the
     * new triple and the submenu is rebuilt. `hostnameOf` stands for
     * MiscUtil.getHostnameFromUrlString.
     */
    method UpdateEditorFieldRestoreMenu(store: Store, hostnameOf: string -> string, windowId: int, tabId: int, url: string)
      returns (removed: seq<string>, created: seq<MenuProps>)
      modifies this
      ensures Contains(url, EXTENSION_URL_MARK) || old(IsCurrent(windowId, tabId, hostnameOf(url)))
        ==> && IsCurrent(old(curWindowId), old(curTabId), old(curHost))
            && menuItemIds == old(menuItemIds) && removed == [] && created == []
      ensures !Contains(url, EXTENSION_URL_MARK) && !old(IsCurrent(windowId, tabId, hostnameOf(url)))
        ==> && IsCurrent(windowId, tabId, hostnameOf(url))
            && menuItemIds == RefreshedItems(store, hostnameOf(url))
            && removed == Map(IdString, RemovalKeys(old(menuItemIds)))
            && created == Map(Props, Layout(menuItemIds))
    {
      removed, created := [], [];
      if Contains(url, EXTENSION_URL_MARK) {
        return;
      }
      var hostname := hostnameOf(url);
      if curWindowId == windowId && curTabId == tabId && curHost == hostname {
        return;
      }
      curWindowId := windowId;
      curTabId := tabId;
      curHost := hostname;
      removed, created := Rebuild(store, hostname);
    }
  }

  /**
   * A refresh removes exactly the ids the previous build created, and creates one id per
   * item of the new layout: what addNewMenuItems leaves behind is what removeCurrentMenuItems
   * clears, whatever the order.
   */
  lemma RemovedMatchesCreated(previous: seq<EditorField>)
    ensures multiset(Map(IdString, RemovalKeys(previous)))
      == multiset(Map((p: MenuProps) => p.id, Map(Props, Layout(previous))))
  {
    RemovalMatchesLayout(previous);
    CreatedIdStrings(Layout(previous));
  }
}
