/**
 * The static menus: which contexts the main context menu uses for each value of the
 * prefContextmenuAvail preference, the items of the context menu, of the browser-action
 * submenu and of the Tools menu, and the bookkeeping of browserContextMenusCreate, which
 * names anonymous items "noname" + a counter that only ever grows, and tracks every id so
 * that receiveContextEvents can remove them all before rebuilding.
 */
module Catalog {
  import opened Wrappers
  import opened Strings
  import opened Menus
  import opened Seqs

  const PREF_PAGE := "page"
  const PREF_EDITFIELDS := "editfields"
  const ANON_PREFIX := "noname"
  /** The initial value of contextAnonMenuItemNo; the first anonymous id is one above it. */
  const FIRST_ANON_NO: nat := 10000
  /** The eventType of the message announcing that the preference changed. */
  const CONTEXTMENU_AVAIL_EVENT := 888

  // ---------------------------------------------------------------------------
  // Contexts

  /** contextAll, contextEdFr and contextEdFrBra of _initContextMenu. */
  datatype ContextLists = ContextLists(all: seq<string>, edFr: seq<string>, edFrBra: seq<string>)

  /** The context lists for a value of prefContextmenuAvail. */
  function ContextsFor(contextmenuAvail: string): ContextLists
  {
    if contextmenuAvail == PREF_PAGE then
      ContextLists(["all"], ["page"], ["browser_action", "page"])
    else if contextmenuAvail == PREF_EDITFIELDS then
      ContextLists(["frame", "browser_action", "page_action", "editable"], ["editable"], ["browser_action", "editable"])
    else
      ContextLists(["frame", "browser_action", "page_action"], [], ["browser_action"])
  }

  /**
   * "page" shows the menu everywhere; "editfields" adds the editable context to the frame,
   * browser-action and page-action contexts; any other value keeps only those three. The
   * items restricted to editable fields and pages get no context at all in that last case;
   * the browser-action list is always "browser_action" followed by them.
   */
  lemma ContextsForProperties(contextmenuAvail: string)
    ensures var c := ContextsFor(contextmenuAvail);
      && c.all != []
      && c.edFrBra == ["browser_action"] + c.edFr
      && ("all" in c.all <==> contextmenuAvail == PREF_PAGE)
      && ("editable" in c.all <==> contextmenuAvail == PREF_EDITFIELDS)
      && (c.edFr == [] <==> contextmenuAvail != PREF_PAGE && contextmenuAvail != PREF_EDITFIELDS)
      && (contextmenuAvail != PREF_PAGE ==> c.all[..3] == ["frame", "browser_action", "page_action"])
  {
  }

  // ---------------------------------------------------------------------------
  // The static items (ids, parents, types, contexts; titles as message keys)

  function Item(id: string, parentId: string, titleKey: string, contexts: seq<string>, icon: string): MenuProps
  {
    MenuProps(id, parentId, Normal, Message(titleKey), contexts, true, Icons(icon))
  }

  /** A separator: it has no id of its own. */
  function SeparatorItem(parentId: string, contexts: seq<string>): MenuProps
  {
    MenuProps("", parentId, Separator, NoTitle, contexts, true, NoIcons)
  }

  /** The items _initContextMenu creates, in order. */
  function ContextMenuItems(c: ContextLists): seq<MenuProps>
  {
    [ Item("manage", "", "contextMenuItemManageHistory", c.all, "fhc"),
      SeparatorItem("", c.edFr),
      Item("restoreEditorField", "", "contextMenuItemRestoreEditorField", c.all, "refresh"),
      SeparatorItem("", c.edFr),
      Item("fillMostRecent", "", "contextMenuItemFillMostRecent", c.all, "fillfields"),
      Item("fillMostUsed", "", "contextMenuItemFillMostUsed", c.all, "fillfields"),
      Item("clearFields", "", "contextMenuItemClearFields", c.edFrBra, "emptyfields"),
      SeparatorItem("", c.edFr),
      Item("showformfields", "", "contextMenuItemShowformfields", c.edFr, "showfields"),
      SeparatorItem("", c.edFr),
      Item("submenuInfo", "", "menuItemInfoSubmenu", c.edFr, "submenu"),
      Item("helpoverview", "submenuInfo", "menuItemHelpOverview", c.edFr, "help"),
      Item("releasenotes", "submenuInfo", "menuItemHelpReleasenotes", c.edFr, "releasenotes"),
      Item("about", "submenuInfo", "menuItemHelpAbout", c.edFr, "about"),
      SeparatorItem("", c.edFr),
      Item("preferences", "", "contextMenuItemOptions", c.edFr, "preferences") ]
  }

  /** The items _initBrowserActionSubmenu creates, in order. */
  function BrowserActionItems(): seq<MenuProps>
  {
    [ Item("submenuExtra", "", "contextMenuItemRestoreEditorFieldSubmenuMore", ["browser_action", "page_action"], "submenu"),
      Item("clearFieldsPA", "submenuExtra", "contextMenuItemClearFields", ["page_action"], "emptyfields"),
      SeparatorItem("submenuExtra", ["page_action"]),
      Item("showformfieldsBA", "submenuExtra", "contextMenuItemShowformfields", ["all"], "showfields"),
      SeparatorItem("submenuExtra", ["all"]),
      Item("helpoverviewBA", "submenuExtra", "menuItemHelpOverview", ["all"], "help"),
      Item("releasenotesBA", "submenuExtra", "menuItemHelpReleasenotes", ["all"], "releasenotes"),
      Item("aboutBA", "submenuExtra", "menuItemHelpAbout", ["all"], "about"),
      SeparatorItem("submenuExtra", ["all"]),
      Item("preferencesBA", "submenuExtra", "contextMenuItemOptions", ["all"], "preferences") ]
  }

  /** The items _initToolsMenu creates, straight through browserMenusCreate. */
  function ToolsMenuItems(): seq<MenuProps>
  {
    [ Item("FHCToolsParentMenu", "", "extensionName", [TOOLS_MENU], "fhc"),
      Item("manageTools", "FHCToolsParentMenu", "contextMenuItemManageHistory", [TOOLS_MENU], "fhc"),
      Item("optionsTools", "FHCToolsParentMenu", "contextMenuItemOptions", [TOOLS_MENU], "preferences") ]
  }

  /** In the context menu exactly the separators come without an id. */
  lemma ContextMenuAnonymousAreSeparators(c: ContextLists)
    ensures forall i :: 0 <= i < |ContextMenuItems(c)| ==>
      (ContextMenuItems(c)[i].id == "" <==> ContextMenuItems(c)[i].itemType == Separator)
  {
  }

  /** In the browser-action submenu exactly the separators come without an id. */
  lemma BrowserActionAnonymousAreSeparators()
    ensures forall i :: 0 <= i < |BrowserActionItems()| ==>
      (BrowserActionItems()[i].id == "" <==> BrowserActionItems()[i].itemType == Separator)
  {
  }

  /** The Tools menu reaches the browser on Firefox alone, and there all three items do, unchanged. */
  lemma ToolsMenuOnFirefoxOnly(platform: Platform)
    ensures !platform.isFirefox ==> CreateAll(ToolsMenuItems(), platform) == []
    ensures platform.isFirefox ==>
      && |CreateAll(ToolsMenuItems(), platform)| == 3
      && forall i :: 0 <= i < 3 ==> CreateAll(ToolsMenuItems(), platform)[i] == CreateCall(BrowserMenus, ToolsMenuItems()[i])
  {
    if platform.isFirefox {
      CreateAllOnFirefox(ToolsMenuItems(), platform);
    } else {
      CreateAllSkipsToolsMenu(ToolsMenuItems(), platform);
    }
  }

  // ---------------------------------------------------------------------------
  // Anonymous ids

  /** 'noname' + n */
  function AnonId(n: nat): string
  {
    ANON_PREFIX + NatToString(n)
  }

  /** Distinct counter values give distinct anonymous ids. */
  lemma AnonIdInjective(a: nat, b: nat)
    ensures AnonId(a) == AnonId(b) <==> a == b
  {
    if a != b {
      NatToStringInjective(a, b);
      assert AnonId(a)[|ANON_PREFIX|..] == NatToString(a);
      assert AnonId(b)[|ANON_PREFIX|..] == NatToString(b);
    }
  }

  /** How many of the items come without an id. */
  function AnonCount(items: seq<MenuProps>): (n: nat)
    ensures n <= |items|
    decreases |items|
  {
    if items == [] then 0 else AnonCount(items[..|items| - 1]) + (if items[|items| - 1].id == "" then 1 else 0)
  }

  /**
   * One item as browserContextMenusCreate hands it on: an item with an id keeps it; one
   * without gets 'noname' + the counter raised by one, an id that no earlier counter value
   * named, and nothing else changes.
   */
  function Named(props: MenuProps, counter: nat): (r: MenuProps)
    ensures r.id != ""
    ensures props.id != "" ==> r == props
    ensures props.id == "" ==> r == props.(id := AnonId(counter + 1))
    ensures props.id == "" ==> forall m: nat :: m <= counter ==> r.id != AnonId(m)
  {
    if props.id == "" then
      var r := props.(id := AnonId(counter + 1));
      assert forall m: nat :: m <= counter ==> r.id != AnonId(m) by {
        forall m: nat | m <= counter ensures r.id != AnonId(m) {
          AnonIdInjective(counter + 1, m);
        }
      }
      r
    else props
  }

  /** The items as a run of browserContextMenusCreate calls hands them on, the counter starting at `counter`. */
  function Assign(items: seq<MenuProps>, counter: nat): (r: seq<MenuProps>)
    ensures |r| == |items|
    decreases |items|
  {
    if items == [] then []
    else
      var init := items[..|items| - 1];
      Assign(init, counter) + [Named(items[|items| - 1], counter + AnonCount(init))]
  }

  /** One more item: its name comes from the counter as the earlier items left it. */
  lemma AssignStep(items: seq<MenuProps>, i: nat, counter: nat)
    requires i < |items|
    ensures Assign(items[..i + 1], counter) == Assign(items[..i], counter) + [Named(items[i], counter + AnonCount(items[..i]))]
    ensures AnonCount(items[..i + 1]) == AnonCount(items[..i]) + (if items[i].id == "" then 1 else 0)
  {
    var longer := items[..i + 1];
    assert longer[..|longer| - 1] == items[..i];
    assert longer[|longer| - 1] == items[i];
  }

  /**
   * Each item is handed on as Named with the counter the items before it left: named items
   * keep their id, the k-th anonymous one (counting from 1) gets 'noname' + (counter + k),
   * and nothing else about an item changes.
   */
  lemma {:induction false} AssignAt(items: seq<MenuProps>, counter: nat, i: nat)
    requires i < |items|
    ensures Assign(items, counter)[i] == Named(items[i], counter + AnonCount(items[..i]))
    decreases |items|
  {
    var init := items[..|items| - 1];
    if i < |init| {
      AssignAt(init, counter, i);
      assert init[..i] == items[..i];
    }
  }

  /** The count of anonymous items grows by one at each anonymous item. */
  lemma {:induction false} AnonCountGrows(items: seq<MenuProps>, i: nat, j: nat)
    requires i < j <= |items| && items[i].id == ""
    ensures AnonCount(items[..i]) < AnonCount(items[..j])
    decreases j
  {
    assert items[..j][..j - 1] == items[..j - 1];
    if j - 1 > i {
      AnonCountGrows(items, i, j - 1);
    } else {
      assert items[..j - 1] == items[..i];
    }
  }

  /** Anonymous ids handed out in one go are pairwise distinct. */
  lemma AssignAnonDistinct(items: seq<MenuProps>, counter: nat)
    ensures forall i, j :: 0 <= i < j < |items| && items[i].id == "" && items[j].id == "" ==>
      Assign(items, counter)[i].id != Assign(items, counter)[j].id
  {
    forall i, j | 0 <= i < j < |items| && items[i].id == "" && items[j].id == ""
      ensures Assign(items, counter)[i].id != Assign(items, counter)[j].id
    {
      AssignAt(items, counter, i);
      AssignAt(items, counter, j);
      AnonCountGrows(items, i, j);
      AnonIdInjective(counter + AnonCount(items[..i]) + 1, counter + AnonCount(items[..j]) + 1);
    }
  }

  /** The number of the anonymous id the item at i is given: above the counter, at most as far as the count of anonymous items. */
  lemma AnonNumberAt(items: seq<MenuProps>, counter: nat, i: nat) returns (n: nat)
    requires i < |items| && items[i].id == ""
    ensures counter < n <= counter + AnonCount(items) && Assign(items, counter)[i].id == AnonId(n)
  {
    AssignAt(items, counter, i);
    AnonCountGrows(items, i, |items|);
    assert items[..|items|] == items;
    n := counter + AnonCount(items[..i]) + 1;
  }

  /** Each anonymous id handed out in one go is numbered above the counter and at most as far as the count of anonymous items. */
  lemma AssignAnonInRange(items: seq<MenuProps>, counter: nat)
    ensures forall i :: 0 <= i < |items| && items[i].id == "" ==>
      exists n: nat :: counter < n <= counter + AnonCount(items) && Assign(items, counter)[i].id == AnonId(n)
  {
    forall i | 0 <= i < |items| && items[i].id == ""
      ensures exists n: nat :: counter < n <= counter + AnonCount(items) && Assign(items, counter)[i].id == AnonId(n)
    {
      var n := AnonNumberAt(items, counter, i);
    }
  }

  function IdOf(props: MenuProps): string
  {
    props.id
  }

  /** The ids of a list of items, in order. */
  function Ids(items: seq<MenuProps>): seq<string>
  {
    Map(IdOf, items)
  }

  /** The ids popped in reverse order. */
  function Reversed(s: seq<string>): (r: seq<string>)
    ensures |r| == |s|
    decreases |s|
  {
    if s == [] then [] else [s[|s| - 1]] + Reversed(s[..|s| - 1])
  }

  lemma {:induction false} ReversedIndex(s: seq<string>)
    ensures forall i :: 0 <= i < |s| ==> Reversed(s)[i] == s[|s| - 1 - i]
    decreases |s|
  {
    if s != [] {
      ReversedIndex(s[..|s| - 1]);
    }
  }

  /** The remove calls for a list of ids, in order. */
  function RemoveAll(ids: seq<string>, platform: Platform): (r: seq<RemoveCall>)
    ensures |r| == |ids|
    decreases |ids|
  {
    if ids == [] then [] else RemoveAll(ids[..|ids| - 1], platform) + [BrowserMenusRemove(ids[|ids| - 1], platform)]
  }

  /** The counter once both tracked menus are built, starting from `counter`. */
  function CounterAfterBuild(contextmenuAvail: string, counter: nat): nat
  {
    counter + AnonCount(ContextMenuItems(ContextsFor(contextmenuAvail))) + AnonCount(BrowserActionItems())
  }

  /** The tracked ids once both tracked menus are built, the context menu's first, the counter starting at `counter`. */
  function TrackedAfterBuild(contextmenuAvail: string, counter: nat): seq<string>
  {
    TrackedIds(ContextMenuItems(ContextsFor(contextmenuAvail)), BrowserActionItems(), counter)
  }

  /** The ids of two lists of items named one after the other, the counter starting at `counter`. */
  function TrackedIds(first: seq<MenuProps>, second: seq<MenuProps>, counter: nat): seq<string>
  {
    Ids(Assign(first, counter)) + Ids(Assign(second, counter + AnonCount(first)))
  }

  /** The create calls for two lists of items named one after the other, the counter starting at `counter`. */
  function BuildCalls(first: seq<MenuProps>, second: seq<MenuProps>, counter: nat, platform: Platform): seq<CreateCall>
  {
    CreateAll(Assign(first, counter), platform) + CreateAll(Assign(second, counter + AnonCount(first)), platform)
  }

  /** The create calls that building both tracked menus makes, the context menu's first, the counter starting at `counter`. */
  function CreatedByBuild(contextmenuAvail: string, counter: nat, platform: Platform): seq<CreateCall>
  {
    BuildCalls(ContextMenuItems(ContextsFor(contextmenuAvail)), BrowserActionItems(), counter, platform)
  }

  /** Every create call for a list of items carries the id of one of those items. */
  lemma {:induction false} CreatedIdsListed(items: seq<MenuProps>, platform: Platform)
    ensures forall c :: c in CreateAll(items, platform) ==> c.props.id in Ids(items)
  {
    CreateAllMembers(items, platform);
    MapIndexes(IdOf, items);
    forall c | c in CreateAll(items, platform) ensures c.props.id in Ids(items) {
      var p :| p in items && BrowserMenusCreate(p, platform) == Some(c);
      assert c.props.(icons := NoIcons).id == p.(icons := NoIcons).id;
      var i :| 0 <= i < |items| && items[i] == p;
      assert Ids(items)[i] == p.id;
    }
  }

  /**
   * Every item a build of the tracked menus creates has its id tracked, so the removal on the
   * next preference change takes it away again: nothing built is left behind.
   */
  lemma {:induction false} BuildCreatesOnlyTracked(contextmenuAvail: string, counter: nat, platform: Platform)
    ensures forall c :: c in CreatedByBuild(contextmenuAvail, counter, platform) ==>
      c.props.id in TrackedAfterBuild(contextmenuAvail, counter)
  {
    BuildCallsListed(ContextMenuItems(ContextsFor(contextmenuAvail)), BrowserActionItems(), counter, platform);
  }

  /** TrackedIds and BuildCalls with the counter the first list leaves behind named. */
  lemma {:induction false} TwoListsSplit(first: seq<MenuProps>, second: seq<MenuProps>, start: nat, counter: nat, platform: Platform)
    requires counter == start + AnonCount(first)
    ensures TrackedIds(first, second, start) == Ids(Assign(first, start)) + Ids(Assign(second, counter))
    ensures BuildCalls(first, second, start, platform)
      == CreateAll(Assign(first, start), platform) + CreateAll(Assign(second, counter), platform)
  {
  }

  /** Every create call for two lists of items named one after the other carries one of their ids. */
  lemma {:induction false} BuildCallsListed(first: seq<MenuProps>, second: seq<MenuProps>, counter: nat, platform: Platform)
    ensures forall c :: c in BuildCalls(first, second, counter, platform) ==> c.props.id in TrackedIds(first, second, counter)
  {
    CreatedIdsListed(Assign(first, counter), platform);
    CreatedIdsListed(Assign(second, counter + AnonCount(first)), platform);
  }

  /** The message that tells the background page the preference changed. */
  datatype ContextEvent = ContextEvent(eventType: int, contextmenuAvailChanged: bool)

  class ContextMenus {
    const platform: Platform
    /** contextAnonMenuItemNo: the number of the last anonymous id handed out. */
    var contextAnonMenuItemNo: nat
    /** CONTEXT_FIELDS_MENUITEM_IDS: every id created through browserContextMenusCreate since the last rebuild. */
    var contextFieldsMenuItemIds: seq<string>
    /** The create and remove calls that reached the browser, oldest first. */
    var createCalls: seq<CreateCall>
    var removeCalls: seq<RemoveCall>

    constructor (platform: Platform)
      ensures this.platform == platform
      ensures contextAnonMenuItemNo == FIRST_ANON_NO
      ensures contextFieldsMenuItemIds == [] && createCalls == [] && removeCalls == []
    {
      this.platform := platform;
      contextAnonMenuItemNo := FIRST_ANON_NO;
      contextFieldsMenuItemIds := [];
      createCalls := [];
      removeCalls := [];
    }

    /** browserContextMenusCreate: name an anonymous item, track its id, create it. */
    method BrowserContextMenusCreate(menuProperties: MenuProps)
      modifies this
      ensures contextAnonMenuItemNo == old(contextAnonMenuItemNo) + (if menuProperties.id == "" then 1 else 0)
      ensures contextFieldsMenuItemIds == old(contextFieldsMenuItemIds) + [Named(menuProperties, old(contextAnonMenuItemNo)).id]
      ensures createCalls == old(createCalls) + OptionToSeq(BrowserMenusCreate(Named(menuProperties, old(contextAnonMenuItemNo)), platform))
      ensures removeCalls == old(removeCalls)
    {
      var props := menuProperties;
      if props.id == "" {
        contextAnonMenuItemNo := contextAnonMenuItemNo + 1;
        props := props.(id := AnonId(contextAnonMenuItemNo));
      }
      contextFieldsMenuItemIds := contextFieldsMenuItemIds + [props.id];
      createCalls := createCalls + OptionToSeq(BrowserMenusCreate(props, platform));
    }

    /** A run of browserContextMenusCreate calls, one per item, in order. */
    method CreateEach(items: seq<MenuProps>)
      modifies this
      ensures contextAnonMenuItemNo == old(contextAnonMenuItemNo) + AnonCount(items)
      ensures contextFieldsMenuItemIds == old(contextFieldsMenuItemIds) + Ids(Assign(items, old(contextAnonMenuItemNo)))
      ensures createCalls == old(createCalls) + CreateAll(Assign(items, old(contextAnonMenuItemNo)), platform)
      ensures removeCalls == old(removeCalls)
    {
      ghost var counter := contextAnonMenuItemNo;
      ghost var ids := contextFieldsMenuItemIds;
      ghost var calls := createCalls;
      ghost var named: seq<MenuProps> := [];
      var i := 0;
      while i < |items|
        invariant 0 <= i <= |items|
        invariant named == Assign(items[..i], counter)
        invariant contextAnonMenuItemNo == counter + AnonCount(items[..i])
        invariant contextFieldsMenuItemIds == ids + Map(IdOf, named)
        invariant createCalls == calls + CreateAll(named, platform)
        invariant removeCalls == old(removeCalls)
      {
        ghost var next := Named(items[i], counter + AnonCount(items[..i]));
        AssignStep(items, i, counter);
        assert named + [next] == Assign(items[..i + 1], counter);
        MapSnoc(IdOf, named, next);
        CreateAllSnoc(named, next, platform);
        MoveFront(ids, Map(IdOf, named), [next.id]);
        MoveFront(calls, CreateAll(named, platform), OptionToSeq(BrowserMenusCreate(next, platform)));
        BrowserContextMenusCreate(items[i]);
        named := named + [next];
        i := i + 1;
      }
      assert items[..i] == items;
    }

    /** _initContextMenu: the tracked ids are emptied, then the context menu's items are created. */
    method InitContextMenu(contextmenuAvail: string)
      modifies this
      ensures var items := ContextMenuItems(ContextsFor(contextmenuAvail));
        && contextAnonMenuItemNo == old(contextAnonMenuItemNo) + AnonCount(items)
        && contextFieldsMenuItemIds == Ids(Assign(items, old(contextAnonMenuItemNo)))
        && createCalls == old(createCalls) + CreateAll(Assign(items, old(contextAnonMenuItemNo)), platform)
      ensures removeCalls == old(removeCalls)
    {
      contextFieldsMenuItemIds := [];
      CreateEach(ContextMenuItems(ContextsFor(contextmenuAvail)));
    }

    /** _initBrowserActionSubmenu: its items are created and their ids tracked after the others. */
    method InitBrowserActionSubmenu()
      modifies this
      ensures contextAnonMenuItemNo == old(contextAnonMenuItemNo) + AnonCount(BrowserActionItems())
      ensures contextFieldsMenuItemIds == old(contextFieldsMenuItemIds) + Ids(Assign(BrowserActionItems(), old(contextAnonMenuItemNo)))
      ensures createCalls == old(createCalls) + CreateAll(Assign(BrowserActionItems(), old(contextAnonMenuItemNo)), platform)
      ensures removeCalls == old(removeCalls)
    {
      CreateEach(BrowserActionItems());
    }

    /** _initToolsMenu: created directly, so neither named by the counter nor tracked. */
    method InitToolsMenu()
      modifies this
      ensures createCalls == old(createCalls) + CreateAll(ToolsMenuItems(), platform)
      ensures contextAnonMenuItemNo == old(contextAnonMenuItemNo) && contextFieldsMenuItemIds == old(contextFieldsMenuItemIds)
      ensures removeCalls == old(removeCalls)
    {
      var items := ToolsMenuItems();
      ghost var calls := createCalls;
      var i := 0;
      while i < |items|
        invariant 0 <= i <= |items|
        invariant createCalls == calls + CreateAll(items[..i], platform)
        invariant contextAnonMenuItemNo == old(contextAnonMenuItemNo) && contextFieldsMenuItemIds == old(contextFieldsMenuItemIds)
        invariant removeCalls == old(removeCalls)
      {
        assert items[..i + 1] == items[..i] + [items[i]];
        CreateAllSnoc(items[..i], items[i], platform);
        MoveFront(calls, CreateAll(items[..i], platform), OptionToSeq(BrowserMenusCreate(items[i], platform)));
        createCalls := createCalls + OptionToSeq(BrowserMenusCreate(items[i], platform));
        i := i + 1;
      }
      assert items[..i] == items;
    }

    /** Both tracked menus, the context menu first: the state initBrowserMenus and a rebuild end in. */
    method InitTrackedMenus(contextmenuAvail: string)
      modifies this
      ensures contextAnonMenuItemNo == CounterAfterBuild(contextmenuAvail, old(contextAnonMenuItemNo))
      ensures contextFieldsMenuItemIds == TrackedAfterBuild(contextmenuAvail, old(contextAnonMenuItemNo))
      ensures createCalls == old(createCalls) + CreatedByBuild(contextmenuAvail, old(contextAnonMenuItemNo), platform)
      ensures removeCalls == old(removeCalls)
    {
      ghost var start := contextAnonMenuItemNo;
      ghost var calls := createCalls;
      ghost var items := ContextMenuItems(ContextsFor(contextmenuAvail));
      InitContextMenu(contextmenuAvail);
      ghost var counter := contextAnonMenuItemNo;
      ghost var contextCalls := CreateAll(Assign(items, start), platform);
      ghost var actionCalls := CreateAll(Assign(BrowserActionItems(), counter), platform);
      InitBrowserActionSubmenu();
      TwoListsSplit(items, BrowserActionItems(), start, counter, platform);
      MoveFront(calls, contextCalls, actionCalls);
    }

    /** initBrowserMenus once the preference is read: the Tools menu, then the two tracked menus. */
    method InitBrowserMenus(contextmenuAvail: string)
      modifies this
      ensures contextAnonMenuItemNo == CounterAfterBuild(contextmenuAvail, old(contextAnonMenuItemNo))
      ensures contextFieldsMenuItemIds == TrackedAfterBuild(contextmenuAvail, old(contextAnonMenuItemNo))
      ensures createCalls
        == old(createCalls) + CreateAll(ToolsMenuItems(), platform) + CreatedByBuild(contextmenuAvail, old(contextAnonMenuItemNo), platform)
      ensures removeCalls == old(removeCalls)
    {
      InitToolsMenu();
      InitTrackedMenus(contextmenuAvail);
    }

    /** The pop loop of receiveContextEvents: every tracked id is removed, the last one first. */
    method RemoveTracked()
      modifies this
      ensures contextFieldsMenuItemIds == []
      ensures removeCalls == old(removeCalls) + RemoveAll(Reversed(old(contextFieldsMenuItemIds)), platform)
      ensures contextAnonMenuItemNo == old(contextAnonMenuItemNo) && createCalls == old(createCalls)
    {
      ghost var tracked := contextFieldsMenuItemIds;
      ghost var calls := removeCalls;
      ReversedIndex(tracked);
      while |contextFieldsMenuItemIds| > 0
        invariant |contextFieldsMenuItemIds| <= |tracked|
        invariant contextFieldsMenuItemIds == tracked[..|contextFieldsMenuItemIds|]
        invariant removeCalls == calls + RemoveAll(Reversed(tracked)[..|tracked| - |contextFieldsMenuItemIds|], platform)
        invariant contextAnonMenuItemNo == old(contextAnonMenuItemNo) && createCalls == old(createCalls)
        decreases |contextFieldsMenuItemIds|
      {
        var n := |contextFieldsMenuItemIds|;
        var itemId := contextFieldsMenuItemIds[n - 1];
        contextFieldsMenuItemIds := contextFieldsMenuItemIds[..n - 1];
        ghost var done := Reversed(tracked)[..|tracked| - n + 1];
        assert done[..|done| - 1] == Reversed(tracked)[..|tracked| - n];
        assert done[|done| - 1] == itemId;
        removeCalls := removeCalls + [BrowserMenusRemove(itemId, platform)];
      }
      assert Reversed(tracked)[..|tracked|] == Reversed(tracked);
    }

    /**
     * receiveContextEvents: on the preference-changed message every tracked id is removed and
     * both tracked menus are built again for the stored preference; any other message changes
     * nothing.
     */
    method ReceiveContextEvents(fhcEvent: ContextEvent, contextmenuAvail: string)
      modifies this
      ensures !(fhcEvent.eventType == CONTEXTMENU_AVAIL_EVENT && fhcEvent.contextmenuAvailChanged) ==>
        && contextAnonMenuItemNo == old(contextAnonMenuItemNo) && contextFieldsMenuItemIds == old(contextFieldsMenuItemIds)
        && createCalls == old(createCalls) && removeCalls == old(removeCalls)
      ensures fhcEvent.eventType == CONTEXTMENU_AVAIL_EVENT && fhcEvent.contextmenuAvailChanged ==>
        && removeCalls == old(removeCalls) + RemoveAll(Reversed(old(contextFieldsMenuItemIds)), platform)
        && contextAnonMenuItemNo == CounterAfterBuild(contextmenuAvail, old(contextAnonMenuItemNo))
        && contextFieldsMenuItemIds == TrackedAfterBuild(contextmenuAvail, old(contextAnonMenuItemNo))
        && createCalls == old(createCalls) + CreatedByBuild(contextmenuAvail, old(contextAnonMenuItemNo), platform)
    {
      if fhcEvent.eventType == CONTEXTMENU_AVAIL_EVENT && fhcEvent.contextmenuAvailChanged {
        RemoveTracked();
        InitTrackedMenus(contextmenuAvail);
      }
    }
  }

  /**
   * Across any run of creations the anonymous ids never repeat: those handed out later are
   * all above the counter that the earlier ones stayed at or below.
   */
  lemma LaterAnonIdsAreFresh(first: seq<MenuProps>, second: seq<MenuProps>, counter: nat)
    ensures forall i, j :: 0 <= i < |first| && 0 <= j < |second| && first[i].id == "" && second[j].id == "" ==>
      Assign(first, counter)[i].id != Assign(second, counter + AnonCount(first))[j].id
  {
    forall i, j | 0 <= i < |first| && 0 <= j < |second| && first[i].id == "" && second[j].id == ""
      ensures Assign(first, counter)[i].id != Assign(second, counter + AnonCount(first))[j].id
    {
      var a := AnonNumberAt(first, counter, i);
      var b := AnonNumberAt(second, counter + AnonCount(first), j);
      AnonIdInjective(a, b);
    }
  }

  /**
   * An item without contexts is never created, yet its id is tracked like any other, so the
   * next rebuild asks the browser to remove an id it never had.
   */
  lemma ContextlessItemsTrackedNotCreated(items: seq<MenuProps>, counter: nat, platform: Platform, k: nat)
    requires k < |items| && items[k].contexts == []
    ensures Ids(Assign(items, counter))[k] == Named(items[k], counter + AnonCount(items[..k])).id
    ensures BrowserMenusCreate(Assign(items, counter)[k], platform) == None
  {
    AssignAt(items, counter, k);
    MapIndex(IdOf, Assign(items, counter), k);
  }
}
