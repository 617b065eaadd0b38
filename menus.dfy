/**
 * The cross-browser wrappers around the menus API: which API a create or remove call goes
 * to, and which create calls are dropped. The browser itself is outside the model; a call
 * is represented by the API it is addressed to and the properties handed over.
 */
module Menus {
  import opened Wrappers

  /** IS_FIREFOX and IS_SAFARI, fixed when the background page starts. */
  datatype Platform = Platform(isFirefox: bool, isSafari: bool)

  /** The `type` property of a menu item: a normal entry or a separator. */
  datatype ItemType = Normal | Separator

  /**
   * The title of a menu item, kept symbolic: a translated message key, a submenu header
   * built around a message key, or a restore entry showing a date and a value.
   */
  datatype Title = NoTitle | Message(key: string) | HeaderTitle(key: string) | Dated(last: int, value: string)

  /** The icon set of a menu item, named after its image file. */
  datatype Icons = NoIcons | Icons(name: string)

  /** The properties object passed to menus.create; an empty id or parentId stands for an absent one. */
  datatype MenuProps = MenuProps(
    id: string, parentId: string, itemType: ItemType, title: Title,
    contexts: seq<string>, enabled: bool, icons: Icons)

  /** browser.menus (Firefox, Safari) or chrome.contextMenus (every other browser). */
  datatype MenuApi = BrowserMenus | ChromeContextMenus

  /** A create call as it reaches the browser. */
  datatype CreateCall = CreateCall(api: MenuApi, props: MenuProps)

  /** A remove call as it reaches the browser. */
  datatype RemoveCall = RemoveCall(api: MenuApi, id: string)

  const TOOLS_MENU := "tools_menu"

  /** The API that create and remove calls go to on a platform. */
  function ApiFor(platform: Platform): MenuApi
  {
    if platform.isFirefox || platform.isSafari then BrowserMenus else ChromeContextMenus
  }

  /**
   * browserMenusCreate: the create call that reaches the browser, or None when none does.
   * Items without contexts are never created; outside Firefox the icons are stripped and
   * items of the Tools menu are skipped.
   */
  function BrowserMenusCreate(props: MenuProps, platform: Platform): (r: Option<CreateCall>)
    ensures r.None? <==> props.contexts == [] || (!platform.isFirefox && TOOLS_MENU in props.contexts)
    ensures r.Some? ==> r.value.api == (if platform.isFirefox || platform.isSafari then BrowserMenus else ChromeContextMenus)
    ensures r.Some? ==> r.value.props.(icons := NoIcons) == props.(icons := NoIcons)
    ensures r.Some? ==> r.value.props.icons == (if platform.isFirefox then props.icons else NoIcons)
  {
    if |props.contexts| == 0 then None
    else if platform.isFirefox then Some(CreateCall(BrowserMenus, props))
    else
      var stripped := props.(icons := NoIcons);
      if TOOLS_MENU in stripped.contexts then None
      else if platform.isSafari then Some(CreateCall(BrowserMenus, stripped))
      else Some(CreateCall(ChromeContextMenus, stripped))
  }

  /** browserMenusRemove: the remove call for an id. */
  function BrowserMenusRemove(id: string, platform: Platform): (r: RemoveCall)
    ensures r.id == id
    ensures r.api == BrowserMenus <==> platform.isFirefox || platform.isSafari
  {
    RemoveCall(ApiFor(platform), id)
  }

  /** An item that is created is removed, by its own id, through the API that created it. */
  lemma RemoveMatchesCreate(props: MenuProps, platform: Platform)
    ensures BrowserMenusCreate(props, platform).Some? ==>
      && BrowserMenusRemove(props.id, platform).api == BrowserMenusCreate(props, platform).value.api
      && BrowserMenusRemove(props.id, platform).id == BrowserMenusCreate(props, platform).value.props.id
  {
  }

  /** The create calls made for a list of items, dropped ones left out. */
  function CreateAll(items: seq<MenuProps>, platform: Platform): (r: seq<CreateCall>)
    ensures |r| <= |items|
    decreases |items|
  {
    if items == [] then []
    else OptionToSeq(BrowserMenusCreate(items[0], platform)) + CreateAll(items[1..], platform)
  }

  /** Every call made comes from one of the items, none is invented. */
  lemma {:induction false} CreateAllMembers(items: seq<MenuProps>, platform: Platform)
    ensures forall c :: c in CreateAll(items, platform) ==> exists p :: p in items && BrowserMenusCreate(p, platform) == Some(c)
    decreases |items|
  {
    if items != [] {
      CreateAllMembers(items[1..], platform);
      forall c | c in CreateAll(items, platform)
        ensures exists p :: p in items && BrowserMenusCreate(p, platform) == Some(c)
      {
        if c in CreateAll(items[1..], platform) {
          var p :| p in items[1..] && BrowserMenusCreate(p, platform) == Some(c);
          assert p in items;
        } else {
          assert BrowserMenusCreate(items[0], platform) == Some(c);
        }
      }
    }
  }

  /** Creating one more item adds its call, if any, at the end. */
  lemma {:induction false} CreateAllSnoc(items: seq<MenuProps>, x: MenuProps, platform: Platform)
    ensures CreateAll(items + [x], platform) == CreateAll(items, platform) + OptionToSeq(BrowserMenusCreate(x, platform))
    decreases |items|
  {
    if items == [] {
      assert [] + [x] == [x];
      assert CreateAll([x], platform) == OptionToSeq(BrowserMenusCreate(x, platform)) + CreateAll([], platform);
    } else {
      assert (items + [x])[1..] == items[1..] + [x];
      CreateAllSnoc(items[1..], x, platform);
    }
  }

  /** On Firefox every item with a context reaches browser.menus unchanged. */
  lemma {:induction false} CreateAllOnFirefox(items: seq<MenuProps>, platform: Platform)
    requires platform.isFirefox
    requires forall p :: p in items ==> p.contexts != []
    ensures CreateAll(items, platform) == seq(|items|, i requires 0 <= i < |items| => CreateCall(BrowserMenus, items[i]))
    decreases |items|
  {
    if items != [] {
      CreateAllOnFirefox(items[1..], platform);
    }
  }

  /** Outside Firefox nothing of the Tools menu reaches the browser. */
  lemma {:induction false} CreateAllSkipsToolsMenu(items: seq<MenuProps>, platform: Platform)
    requires !platform.isFirefox
    requires forall p :: p in items ==> TOOLS_MENU in p.contexts
    ensures CreateAll(items, platform) == []
    decreases |items|
  {
    if items != [] {
      CreateAllSkipsToolsMenu(items[1..], platform);
    }
  }
}
