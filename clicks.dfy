/**
 * The menus' click listener: what a click on a menu item id does. Opening a window,
 * messaging the tab and looking a record up in the database are outside the model; each
 * is represented by the action the listener starts.
 */
module Clicks {
  import opened Wrappers
  import opened Strings
  import opened Menus
  import opened Submenu
  import opened Catalog
  import opened FieldStore

  /** The windows WindowUtil.createOrFocusWindow can open. */
  datatype Window = ManageWindow | OptionsWindow | AboutWindow | HelpWindow | RelNotesWindow

  /** What a click starts. */
  datatype Action =
    | OpenWindow(window: Window)
    /** fillformfields: a message to the tab with the action named by the item. */
    | FillFormFields(tabId: int, action: string)
    | ShowFormFields(tabId: int)
    /** getSingleElementByPrimaryKeyAndNotify with the decoded key; None stands for NaN. */
    | RestoreField(primaryKey: Option<int>, tabId: int)
    | NoAction

  /** The key a restore id carries: the first "editfld" removed, the rest read by parseInt. */
  function DecodePrimaryKey(menuItemId: string): Option<int>
  {
    ParseInt(ReplaceFirst(menuItemId, ID_PREFIX, ""))
  }

  /** The listener as written: one case per known id, then the "editfld" prefix. */
  function OnMenuClickedAsWritten(menuItemId: string, tabId: int): Action
  {
    if menuItemId in ["manage", "manageTools"] then OpenWindow(ManageWindow)
    else if menuItemId in ["options", "optionsTools"] then OpenWindow(OptionsWindow)
    else if menuItemId == "restoreEditorField" then NoAction
    else if menuItemId in ["clearFields", "fillMostRecent", "fillMostUsed"] then FillFormFields(tabId, menuItemId)
    else if menuItemId in ["showformfields", "showformfieldsBA"] then ShowFormFields(tabId)
    else if menuItemId == MORE_ID then OpenWindow(ManageWindow)
    else if menuItemId in ["preferences", "preferencesBA"] then OpenWindow(OptionsWindow)
    else if menuItemId in ["about", "aboutBA"] then OpenWindow(AboutWindow)
    else if menuItemId in ["helpoverview", "helpoverviewBA"] then OpenWindow(HelpWindow)
    else if menuItemId in ["releasenotes", "releasenotesBA"] then OpenWindow(RelNotesWindow)
    else if StartsWith(menuItemId, ID_PREFIX) then RestoreField(DecodePrimaryKey(menuItemId), tabId)
    else NoAction
  }

  /** The listener with the browser-action "clear fields" item handled like its context-menu twin. */
  function OnMenuClicked(menuItemId: string, tabId: int): Action
  {
    if menuItemId == "clearFieldsPA" then FillFormFields(tabId, "clearFields")
    else OnMenuClickedAsWritten(menuItemId, tabId)
  }

  /**
   * An id starting with 'e' matches none of the listener's fixed cases but "editfldMore":
   * it opens the history manager, reaches the database, or does nothing.
   */
  lemma EditfldDispatch(menuItemId: string, tabId: int)
    requires |menuItemId| > 0 && menuItemId[0] == 'e'
    ensures OnMenuClickedAsWritten(menuItemId, tabId)
      == if menuItemId == MORE_ID then OpenWindow(ManageWindow)
         else if StartsWith(menuItemId, ID_PREFIX) then RestoreField(DecodePrimaryKey(menuItemId), tabId)
         else NoAction
  {
    assert "manage"[0] != 'e' && "manageTools"[0] != 'e';
    assert "options"[0] != 'e' && "optionsTools"[0] != 'e';
    assert "restoreEditorField"[0] != 'e';
    assert "clearFields"[0] != 'e' && "fillMostRecent"[0] != 'e' && "fillMostUsed"[0] != 'e';
    assert "showformfields"[0] != 'e' && "showformfieldsBA"[0] != 'e';
    assert "preferences"[0] != 'e' && "preferencesBA"[0] != 'e';
    assert "about"[0] != 'e' && "aboutBA"[0] != 'e';
    assert "helpoverview"[0] != 'e' && "helpoverviewBA"[0] != 'e';
    assert "releasenotes"[0] != 'e' && "releasenotesBA"[0] != 'e';
  }

  /** Only "editfld" ids other than "editfldMore" reach the database, and each of them does. */
  lemma RestoreOnlyForEditfld(menuItemId: string, tabId: int)
    ensures OnMenuClickedAsWritten(menuItemId, tabId).RestoreField? <==> StartsWith(menuItemId, ID_PREFIX) && menuItemId != MORE_ID
    ensures OnMenuClickedAsWritten(menuItemId, tabId).RestoreField? ==>
      OnMenuClickedAsWritten(menuItemId, tabId) == RestoreField(DecodePrimaryKey(menuItemId), tabId)
  {
    if StartsWith(menuItemId, ID_PREFIX) {
      assert menuItemId[0] == ID_PREFIX[0];
      EditfldDispatch(menuItemId, tabId);
    }
  }

  /** Removing the prefix of an id that starts with it leaves exactly what followed it. */
  lemma ReplacePrefix(rest: string)
    ensures ReplaceFirst(ID_PREFIX + rest, ID_PREFIX, "") == rest
  {
    var s := ID_PREFIX + rest;
    assert s[..|ID_PREFIX|] == ID_PREFIX;
    assert IndexOf(s, ID_PREFIX) == Some(0);
  }

  /** The key read back from the id of a record's entry is the record's key. */
  lemma DecodeEntryId(pKey: nat)
    ensures DecodePrimaryKey(IdString(EntryOf(pKey))) == Some(pKey)
  {
    ReplacePrefix(NatToString(pKey));
    ParseIntOfNatToString(pKey);
  }

  /** The id of a record's entry carries the prefix and, a digit following it, is not "editfldMore". */
  lemma EntryIdShape(pKey: nat)
    ensures var id := IdString(EntryOf(pKey));
      |id| > 0 && id[0] == 'e' && StartsWith(id, ID_PREFIX) && id != MORE_ID
  {
    var id := IdString(EntryOf(pKey));
    assert id[..7] == ID_PREFIX;
    assert IsDigit(id[7]);
  }

  /** A click on the entry of a record restores exactly that record: the id encoding round-trips. */
  lemma EntryClickRestoresRecord(pKey: nat, tabId: int)
    ensures OnMenuClickedAsWritten(IdString(EntryOf(pKey)), tabId) == RestoreField(Some(pKey), tabId)
  {
    EntryIdShape(pKey);
    DecodeEntryId(pKey);
    EditfldDispatch(IdString(EntryOf(pKey)), tabId);
  }

  /** A header's id carries the prefix and is not "editfldMore". */
  lemma HeaderIdShape(kind: Kind)
    ensures var id := IdString(HeaderOf(kind));
      |id| > 0 && id[0] == 'e' && StartsWith(id, ID_PREFIX) && id != MORE_ID
  {
    var id := IdString(HeaderOf(kind));
    assert id[..7] == ID_PREFIX;
    assert id[7] != MORE_ID[7];
  }

  /** The text after a header's prefix is the kind's name, which holds no number. */
  lemma DecodeHeaderId(kind: Kind)
    ensures DecodePrimaryKey(IdString(HeaderOf(kind))) == None
  {
    ReplacePrefix(KindName(kind));
    assert KindName(kind)[0] in "hl";
    ParseIntOfNonNumeric(KindName(kind));
  }

  /** A header's id (the header is disabled, so never clicked) would find no record. */
  lemma HeaderClickFindsNothing(kind: Kind, tabId: int)
    ensures OnMenuClickedAsWritten(IdString(HeaderOf(kind)), tabId) == RestoreField(None, tabId)
  {
    HeaderIdShape(kind);
    DecodeHeaderId(kind);
    EditfldDispatch(IdString(HeaderOf(kind)), tabId);
  }

  /** "More" opens the history manager. */
  lemma MoreOpensManager(tabId: int)
    ensures OnMenuClickedAsWritten(IdString(MoreId), tabId) == OpenWindow(ManageWindow)
  {
    EditfldDispatch(MORE_ID, tabId);
  }

  /** The items of the static menus that start something when clicked: all but separators and submenu parents. */
  predicate Clickable(props: MenuProps)
  {
    props.itemType == Normal
    && props.id !in ["restoreEditorField", "submenuInfo", "submenuExtra", "FHCToolsParentMenu"]
  }

  /** The browser-action "clear fields" item is created, clickable, and ignored by the listener as written. */
  lemma ClearFieldsPAIgnored(tabId: int)
    ensures BrowserActionItems()[1].id == "clearFieldsPA" && Clickable(BrowserActionItems()[1])
    ensures OnMenuClickedAsWritten("clearFieldsPA", tabId) == NoAction
  {
    var id := "clearFieldsPA";
    assert |id| == 13 && id[0] == 'c' && id[5] == 'F';
    assert id != "preferencesBA" by {
      assert "preferencesBA"[0] == 'p';
    }
    assert !StartsWith(id, ID_PREFIX) by {
      assert ID_PREFIX[0] == 'e';
    }
  }

  /** The correction changes the listener for "clearFieldsPA" alone, which it sends to clearFields. */
  lemma CorrectionOnlyClearFieldsPA(menuItemId: string, tabId: int)
    ensures menuItemId != "clearFieldsPA" ==> OnMenuClicked(menuItemId, tabId) == OnMenuClickedAsWritten(menuItemId, tabId)
    ensures OnMenuClicked("clearFieldsPA", tabId) == FillFormFields(tabId, "clearFields")
    ensures OnMenuClicked("clearFieldsPA", tabId) != OnMenuClickedAsWritten("clearFieldsPA", tabId)
  {
    ClearFieldsPAIgnored(tabId);
  }

  /** Every clickable item of the context menu starts something. */
  lemma ContextMenuItemsHandled(c: ContextLists, tabId: int)
    ensures forall i :: 0 <= i < |ContextMenuItems(c)| && Clickable(ContextMenuItems(c)[i]) ==>
      OnMenuClickedAsWritten(ContextMenuItems(c)[i].id, tabId) != NoAction
  {
  }

  /** With the correction, every clickable item of the browser-action submenu starts something, "clearFieldsPA" included. */
  lemma BrowserActionItemsHandled(tabId: int)
    ensures forall i :: 0 <= i < |BrowserActionItems()| && Clickable(BrowserActionItems()[i]) ==>
      OnMenuClicked(BrowserActionItems()[i].id, tabId) != NoAction
  {
  }

  /** Every clickable item of the Tools menu starts something. */
  lemma ToolsMenuItemsHandled(tabId: int)
    ensures forall i :: 0 <= i < |ToolsMenuItems()| && Clickable(ToolsMenuItems()[i]) ==>
      OnMenuClickedAsWritten(ToolsMenuItems()[i].id, tabId) != NoAction
  {
  }
}
