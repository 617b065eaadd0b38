/**
 * The "restore editor field" submenu: the items addNewMenuItems creates for the tracked
 * candidates and the ids removeCurrentMenuItems removes for them.
 *
 * An item is first described by what it stands for (a group header, the entry of one
 * candidate, the closing separator, "More"); IdString renders that as the id string the
 * browser sees, and is injective, so facts about items carry over to their ids.
 */
module Submenu {
  import opened Strings
  import opened Menus
  import opened FieldStore
  import opened Seqs

  const ID_PREFIX := "editfld"
  const PARENT_ID := "restoreEditorField"
  const MORE_SEPARATOR_ID := "editfldMoreSeparator"
  const MORE_ID := "editfldMore"
  const MORE_MESSAGE := "contextMenuItemRestoreEditorFieldSubmenuMore"

  /** The `type` tag as a string. */
  function KindName(k: Kind): string
  {
    match k
    case Hostname => "hostname"
    case Lastused => "lastused"
  }

  /** The message key of a group header. */
  function HeaderMessage(k: Kind): string
  {
    match k
    case Hostname => "contextMenuItemRestoreEditorFieldSubmenuHostname"
    case Lastused => "contextMenuItemRestoreEditorFieldSubmenuLastused"
  }

  // ---------------------------------------------------------------------------
  // Item ids

  /** What a submenu id stands for. */
  datatype ItemId = HeaderOf(kind: Kind) | EntryOf(pKey: nat) | MoreSeparatorId | MoreId

  /** The id string: "editfld" + item.type, "editfld" + item.pKey, or one of the two fixed ids. */
  function IdString(id: ItemId): string
  {
    match id
    case HeaderOf(k) => ID_PREFIX + KindName(k)
    case EntryOf(pKey) => ID_PREFIX + NatToString(pKey)
    case MoreSeparatorId => MORE_SEPARATOR_ID
    case MoreId => MORE_ID
  }

  /** Distinct items get distinct id strings: the eighth character tells the kind of id apart. */
  lemma IdStringInjective(a: ItemId, b: ItemId)
    ensures IdString(a) == IdString(b) <==> a == b
  {
    if a != b {
      if a.EntryOf? && b.EntryOf? {
        NatToStringInjective(a.pKey, b.pKey);
        assert IdString(a)[7..] == NatToString(a.pKey);
        assert IdString(b)[7..] == NatToString(b.pKey);
      } else if a.EntryOf? || b.EntryOf? {
        var e := if a.EntryOf? then a else b;
        var o := if a.EntryOf? then b else a;
        assert IdString(e)[7] == NatToString(e.pKey)[0];
        assert IsDigit(IdString(e)[7]);
        assert IdString(o)[7] in "hlM";
        assert IdString(e) != IdString(o);
      } else if a.HeaderOf? && b.HeaderOf? {
        assert IdString(a)[7] != IdString(b)[7];
      } else if !a.HeaderOf? && !b.HeaderOf? {
        assert |IdString(a)| != |IdString(b)|;
      } else {
        assert IdString(a)[7] != IdString(b)[7];
      }
    }
  }

  // ---------------------------------------------------------------------------
  // Items and their properties

  /** An item of the submenu: a group header, the entry of a candidate, the separator, "More". */
  datatype SubmenuItem = Header(kind: Kind) | Entry(field: EditorField) | MoreSeparator | More

  function Key(item: SubmenuItem): ItemId
  {
    match item
    case Header(k) => HeaderOf(k)
    case Entry(e) => EntryOf(e.pKey)
    case MoreSeparator => MoreSeparatorId
    case More => MoreId
  }

  /** createSubmenuItem: icons only on enabled items, the "More" item with the extension's own icon. */
  function CreateSubmenuItem(id: string, title: Title, enabled: bool): MenuProps
  {
    var icons := if !enabled then NoIcons else if id == MORE_ID then Icons("fhc") else Icons("fillfields");
    MenuProps(id, PARENT_ID, Normal, title, ["all"], enabled, icons)
  }

  /** createSubmenuSeparator (a separator is enabled by default). */
  function CreateSubmenuSeparator(id: string): MenuProps
  {
    MenuProps(id, PARENT_ID, Separator, NoTitle, ["all"], true, NoIcons)
  }

  /** The properties each item is created with. */
  function Props(item: SubmenuItem): MenuProps
  {
    match item
    case Header(k) => CreateSubmenuItem(IdString(HeaderOf(k)), HeaderTitle(HeaderMessage(k)), false)
    case Entry(e) => CreateSubmenuItem(IdString(EntryOf(e.pKey)), Dated(e.last, e.value), true)
    case MoreSeparator => CreateSubmenuSeparator(MORE_SEPARATOR_ID)
    case More => CreateSubmenuItem(MORE_ID, Message(MORE_MESSAGE), true)
  }

  /**
   * Every submenu item hangs under restoreEditorField in every context, so it reaches the
   * browser on every platform; headers are disabled and bare, entries carry the fill icon,
   * "More" the extension's icon.
   */
  lemma PropsOfItem(item: SubmenuItem, platform: Platform)
    ensures Props(item).id == IdString(Key(item))
    ensures Props(item).parentId == PARENT_ID && Props(item).contexts == ["all"]
    ensures Props(item).enabled <==> !item.Header?
    ensures Props(item).icons == match item
      case Header(_) => NoIcons
      case Entry(_) => Icons("fillfields")
      case MoreSeparator => NoIcons
      case More => Icons("fhc")
    ensures BrowserMenusCreate(Props(item), platform).Some?
  {
    if item.Entry? {
      IdStringInjective(EntryOf(item.field.pKey), MoreId);
    }
  }

  // ---------------------------------------------------------------------------
  // addNewMenuItems


  /** The group's header is already shown (or already removed): the flag of group k. */
  predicate Flagged(k: Kind, hostnameFlag: bool, lastusedFlag: bool)
  {
    if k == Hostname then hostnameFlag else lastusedFlag
  }

  /** The header item created before candidate e, given the "header added" flags. */
  function HeaderItems(e: EditorField, hostnameAdded: bool, lastusedAdded: bool): seq<SubmenuItem>
  {
    if Flagged(e.kind, hostnameAdded, lastusedAdded) then [] else [Header(e.kind)]
  }

  /**
   * The items the forEach creates for the candidates s, front to back, starting from the
   * given flags: a group's header before the group's first candidate, then each entry.
   */
  function Added(s: seq<EditorField>, hostnameAdded: bool, lastusedAdded: bool): seq<SubmenuItem>
    decreases |s|
  {
    if s == [] then []
    else
      var e := s[0];
      HeaderItems(e, hostnameAdded, lastusedAdded) + [Entry(e)]
        + Added(s[1..], hostnameAdded || e.kind == Hostname, lastusedAdded || e.kind == Lastused)
  }

  /** The separator and "More" closing a non-empty submenu. */
  function Trailer(s: seq<EditorField>): seq<SubmenuItem>
  {
    if |s| > 0 then [MoreSeparator, More] else []
  }

  /** The ids of the separator and "More" closing a non-empty submenu. */
  function TrailerIds(s: seq<EditorField>): seq<ItemId>
  {
    if |s| > 0 then [MoreSeparatorId, MoreId] else []
  }

  /** Every item addNewMenuItems creates, in creation order. */
  function Layout(s: seq<EditorField>): seq<SubmenuItem>
  {
    Added(s, false, false) + Trailer(s)
  }

  /** One step of the forEach: the items of candidate s[i], then the rest with updated flags. */
  lemma AddedStep(s: seq<EditorField>, i: nat, hostnameAdded: bool, lastusedAdded: bool)
    requires i < |s|
    ensures Added(s[i..], hostnameAdded, lastusedAdded)
      == HeaderItems(s[i], hostnameAdded, lastusedAdded) + [Entry(s[i])]
       + Added(s[i + 1..], hostnameAdded || s[i].kind == Hostname, lastusedAdded || s[i].kind == Lastused)
  {
    assert s[i..][0] == s[i] && s[i..][1..] == s[i + 1..];
  }

  /**
   * The body of the forEach for one candidate: the group's header when the group has none
   * yet, then the candidate's entry; the flags come back with the candidate's group set.
   */
  method AddCandidateItems(item: EditorField, hostnameMenuAdded: bool, lastusedMenuAdded: bool)
    returns (created: seq<MenuProps>, hostnameAdded: bool, lastusedAdded: bool)
    ensures created == Map(Props, HeaderItems(item, hostnameMenuAdded, lastusedMenuAdded) + [Entry(item)])
    ensures hostnameAdded == (hostnameMenuAdded || item.kind == Hostname)
    ensures lastusedAdded == (lastusedMenuAdded || item.kind == Lastused)
  {
    created := [];
    hostnameAdded, lastusedAdded := hostnameMenuAdded, lastusedMenuAdded;
    if (item.kind == Hostname && !hostnameMenuAdded) || (item.kind == Lastused && !lastusedMenuAdded) {
      var title;
      if item.kind == Hostname {
        hostnameAdded := true;
        title := HeaderMessage(Hostname);
      } else {
        lastusedAdded := true;
        title := HeaderMessage(Lastused);
      }
      created := created + [CreateSubmenuItem(IdString(HeaderOf(item.kind)), HeaderTitle(title), false)];
    }
    created := created + [CreateSubmenuItem(IdString(EntryOf(item.pKey)), Dated(item.last, item.value), true)];
    MapSnoc(Props, HeaderItems(item, hostnameMenuAdded, lastusedMenuAdded), Entry(item));
  }

  /** The properties of the whole layout: those of the candidates' items, then the closing pair. */
  lemma LayoutProps(s: seq<EditorField>, items: seq<SubmenuItem>)
    requires items == Added(s, false, false)
    ensures Map(Props, Layout(s)) == Map(Props, items)
      + (if |s| > 0 then [CreateSubmenuSeparator(MORE_SEPARATOR_ID), CreateSubmenuItem(MORE_ID, Message(MORE_MESSAGE), true)] else [])
  {
    MapAppend(Props, items, Trailer(s));
    if |s| > 0 {
      MapSnoc(Props, [], MoreSeparator);
      assert [] + [MoreSeparator] == [MoreSeparator];
      MapSnoc(Props, [MoreSeparator], More);
      assert Trailer(s) == [MoreSeparator] + [More];
    } else {
      assert Map(Props, Trailer(s)) == [];
    }
  }

  /** The forEach with the "header added" flags creates exactly the layout. */
  method AddNewMenuItems(menuItemsIds: seq<EditorField>) returns (created: seq<MenuProps>)
    ensures created == Map(Props, Layout(menuItemsIds))
  {
    created := [];
    ghost var items: seq<SubmenuItem> := [];
    ghost var all := Added(menuItemsIds, false, false);
    var hostnameMenuAdded := false;
    var lastusedMenuAdded := false;
    var i := 0;
    while i < |menuItemsIds|
      invariant 0 <= i <= |menuItemsIds|
      invariant items + Added(menuItemsIds[i..], hostnameMenuAdded, lastusedMenuAdded) == all
      invariant created == Map(Props, items)
    {
      ghost var step := HeaderItems(menuItemsIds[i], hostnameMenuAdded, lastusedMenuAdded) + [Entry(menuItemsIds[i])];
      AddedStep(menuItemsIds, i, hostnameMenuAdded, lastusedMenuAdded);
      MoveFront(items, step, Added(menuItemsIds[i + 1..], hostnameMenuAdded || menuItemsIds[i].kind == Hostname, lastusedMenuAdded || menuItemsIds[i].kind == Lastused));
      MapAppend(Props, items, step);
      var more;
      more, hostnameMenuAdded, lastusedMenuAdded := AddCandidateItems(menuItemsIds[i], hostnameMenuAdded, lastusedMenuAdded);
      created := created + more;
      items := items + step;
      i := i + 1;
    }
    assert menuItemsIds[i..] == [];
    LayoutProps(menuItemsIds, items);
    if |menuItemsIds| > 0 {
      created := created + [CreateSubmenuSeparator(MORE_SEPARATOR_ID)];
      created := created + [CreateSubmenuItem(MORE_ID, Message(MORE_MESSAGE), true)];
    }
  }

  // ---------------------------------------------------------------------------
  // removeCurrentMenuItems

  /** The header id removed when candidate e is popped, given the "header deleted" flags. */
  function RemovedHeader(e: EditorField, hostnameDeleted: bool, lastusedDeleted: bool): seq<ItemId>
  {
    if Flagged(e.kind, hostnameDeleted, lastusedDeleted) then [] else [HeaderOf(e.kind)]
  }

  /**
   * The ids the while loop removes while popping the candidates s, last one first: a
   * group's header when its last candidate is popped, then each entry.
   */
  function Removal(s: seq<EditorField>, hostnameDeleted: bool, lastusedDeleted: bool): seq<ItemId>
    decreases |s|
  {
    if s == [] then []
    else
      var e := s[|s| - 1];
      RemovedHeader(e, hostnameDeleted, lastusedDeleted) + [EntryOf(e.pKey)]
        + Removal(s[..|s| - 1], hostnameDeleted || e.kind == Hostname, lastusedDeleted || e.kind == Lastused)
  }

  /** Every id removeCurrentMenuItems removes for the tracked candidates, in order. */
  function RemovalKeys(s: seq<EditorField>): seq<ItemId>
  {
    TrailerIds(s) + Removal(s, false, false)
  }

  // ---------------------------------------------------------------------------
  // Creation and removal account for the same ids

  /** Some candidate of s belongs to group k. */
  predicate HasKind(s: seq<EditorField>, k: Kind)
    decreases |s|
  {
    s != [] && (s[0].kind == k || HasKind(s[1..], k))
  }

  /** How many candidates of s have primary key pKey. */
  function EntryCount(s: seq<EditorField>, pKey: nat): nat
    decreases |s|
  {
    if s == [] then 0 else (if s[0].pKey == pKey then 1 else 0) + EntryCount(s[1..], pKey)
  }

  lemma {:induction false} HasKindMeaning(s: seq<EditorField>, k: Kind)
    ensures HasKind(s, k) <==> exists j :: 0 <= j < |s| && s[j].kind == k
    decreases |s|
  {
    if s != [] {
      HasKindMeaning(s[1..], k);
      if HasKind(s[1..], k) {
        var j :| 0 <= j < |s[1..]| && s[1..][j].kind == k;
        assert s[j + 1].kind == k;
      }
      forall j | 0 < j < |s| && s[j].kind == k ensures HasKind(s[1..], k) {
        assert s[1..][j - 1].kind == k;
      }
    }
  }

  /** The positions below n holding pKey: those below n - 1, and n - 1 when it holds pKey. */
  lemma PositionsStep(s: seq<EditorField>, n: nat, pKey: nat)
    requires 0 < n <= |s|
    ensures |set j | 0 <= j < n && s[j].pKey == pKey|
      == |set j | 0 <= j < n - 1 && s[j].pKey == pKey| + (if s[n - 1].pKey == pKey then 1 else 0)
  {
    var before := set j | 0 <= j < n - 1 && s[j].pKey == pKey;
    var now := set j | 0 <= j < n && s[j].pKey == pKey;
    if s[n - 1].pKey == pKey {
      assert now == before + {n - 1};
    } else {
      assert now == before;
    }
  }

  lemma {:induction false} EntryCountPrefix(s: seq<EditorField>, n: nat, pKey: nat)
    requires n <= |s|
    ensures EntryCount(s[..n], pKey) == |set j | 0 <= j < n && s[j].pKey == pKey|
    decreases n
  {
    if n > 0 {
      EntryCountPrefix(s, n - 1, pKey);
      LastOf(s[..n], Hostname, pKey);
      assert s[..n][..n - 1] == s[..n - 1];
      PositionsStep(s, n, pKey);
    } else {
      assert s[..0] == [];
    }
  }

  lemma EntryCountMeaning(s: seq<EditorField>, pKey: nat)
    ensures EntryCount(s, pKey) == |set j | 0 <= j < |s| && s[j].pKey == pKey|
  {
    EntryCountPrefix(s, |s|, pKey);
    assert s[..|s|] == s;
  }

  /** The last candidate, seen from the back: what the pop loop relies on. */
  lemma {:induction false} LastOf(s: seq<EditorField>, k: Kind, pKey: nat)
    requires s != []
    ensures HasKind(s, k) <==> HasKind(s[..|s| - 1], k) || s[|s| - 1].kind == k
    ensures EntryCount(s, pKey) == EntryCount(s[..|s| - 1], pKey) + (if s[|s| - 1].pKey == pKey then 1 else 0)
    decreases |s|
  {
    if |s| > 1 {
      LastOf(s[1..], k, pKey);
      assert s[1..][..|s| - 2] == s[..|s| - 1][1..];
    }
  }

  /**
   * How often the ids of the candidates s hold x, starting from the given flags: a header
   * once for each group present whose flag is clear, one entry per candidate.
   */
  function CandidateCount(s: seq<EditorField>, hostnameFlag: bool, lastusedFlag: bool, x: ItemId): nat
  {
    match x
    case HeaderOf(k) => if !Flagged(k, hostnameFlag, lastusedFlag) && HasKind(s, k) then 1 else 0
    case EntryOf(pKey) => EntryCount(s, pKey)
    case MoreSeparatorId => 0
    case MoreId => 0
  }

  lemma ConcatCount(a: seq<ItemId>, b: seq<ItemId>, x: ItemId)
    ensures multiset(a + b)[x] == multiset(a)[x] + multiset(b)[x]
  {
  }

  /** The ids one candidate adds: its group's header if that is not there yet, then its entry. */
  function StepKeys(e: EditorField, hostnameAdded: bool, lastusedAdded: bool): seq<ItemId>
  {
    (if Flagged(e.kind, hostnameAdded, lastusedAdded) then [] else [HeaderOf(e.kind)]) + [EntryOf(e.pKey)]
  }

  lemma StepKeysCount(e: EditorField, hostnameAdded: bool, lastusedAdded: bool, k: Kind, pKey: nat)
    ensures multiset(StepKeys(e, hostnameAdded, lastusedAdded))[EntryOf(pKey)] == if e.pKey == pKey then 1 else 0
    ensures multiset(StepKeys(e, hostnameAdded, lastusedAdded))[HeaderOf(k)]
      == if !Flagged(e.kind, hostnameAdded, lastusedAdded) && e.kind == k then 1 else 0
  {
  }

  /** The ids of the items Added creates, in the same order. */
  function AddedKeys(s: seq<EditorField>, hostnameAdded: bool, lastusedAdded: bool): seq<ItemId>
    decreases |s|
  {
    if s == [] then []
    else
      var e := s[0];
      StepKeys(e, hostnameAdded, lastusedAdded)
        + AddedKeys(s[1..], hostnameAdded || e.kind == Hostname, lastusedAdded || e.kind == Lastused)
  }

  /** The ids of one step of the forEach, followed by any items. */
  lemma KeysOfStep(e: EditorField, hostnameAdded: bool, lastusedAdded: bool, rest: seq<SubmenuItem>)
    ensures Map(Key, HeaderItems(e, hostnameAdded, lastusedAdded) + [Entry(e)] + rest)
      == StepKeys(e, hostnameAdded, lastusedAdded) + Map(Key, rest)
  {
    var hs := HeaderItems(e, hostnameAdded, lastusedAdded);
    MapAppend(Key, hs + [Entry(e)], rest);
    MapAppend(Key, hs, [Entry(e)]);
    if hs != [] {
      assert Map(Key, hs) == [HeaderOf(e.kind)];
    }
  }

  lemma {:induction false} KeysOfAdded(s: seq<EditorField>, hostnameAdded: bool, lastusedAdded: bool)
    ensures Map(Key, Added(s, hostnameAdded, lastusedAdded)) == AddedKeys(s, hostnameAdded, lastusedAdded)
    decreases |s|
  {
    if s != [] {
      var e := s[0];
      var h, l := hostnameAdded || e.kind == Hostname, lastusedAdded || e.kind == Lastused;
      KeysOfAdded(s[1..], h, l);
      KeysOfStep(e, hostnameAdded, lastusedAdded, Added(s[1..], h, l));
    }
  }

  lemma {:induction false} AddedHeaderCount(s: seq<EditorField>, hostnameAdded: bool, lastusedAdded: bool, k: Kind)
    ensures multiset(AddedKeys(s, hostnameAdded, lastusedAdded))[HeaderOf(k)]
      == if !Flagged(k, hostnameAdded, lastusedAdded) && HasKind(s, k) then 1 else 0
    decreases |s|
  {
    if s != [] {
      var e := s[0];
      var h, l := hostnameAdded || e.kind == Hostname, lastusedAdded || e.kind == Lastused;
      AddedHeaderCount(s[1..], h, l, k);
      StepKeysCount(e, hostnameAdded, lastusedAdded, k, 0);
      ConcatCount(StepKeys(e, hostnameAdded, lastusedAdded), AddedKeys(s[1..], h, l), HeaderOf(k));
    }
  }

  lemma {:induction false} AddedEntryCount(s: seq<EditorField>, hostnameAdded: bool, lastusedAdded: bool, pKey: nat)
    ensures multiset(AddedKeys(s, hostnameAdded, lastusedAdded))[EntryOf(pKey)] == EntryCount(s, pKey)
    decreases |s|
  {
    if s != [] {
      var e := s[0];
      var h, l := hostnameAdded || e.kind == Hostname, lastusedAdded || e.kind == Lastused;
      AddedEntryCount(s[1..], h, l, pKey);
      StepKeysCount(e, hostnameAdded, lastusedAdded, e.kind, pKey);
      ConcatCount(StepKeys(e, hostnameAdded, lastusedAdded), AddedKeys(s[1..], h, l), EntryOf(pKey));
    }
  }

  lemma {:induction false} AddedTrailerFree(s: seq<EditorField>, hostnameAdded: bool, lastusedAdded: bool)
    ensures MoreId !in AddedKeys(s, hostnameAdded, lastusedAdded)
    ensures MoreSeparatorId !in AddedKeys(s, hostnameAdded, lastusedAdded)
    decreases |s|
  {
    if s != [] {
      var e := s[0];
      AddedTrailerFree(s[1..], hostnameAdded || e.kind == Hostname, lastusedAdded || e.kind == Lastused);
    }
  }

  lemma AddedCount(s: seq<EditorField>, x: ItemId)
    ensures multiset(AddedKeys(s, false, false))[x] == CandidateCount(s, false, false, x)
  {
    match x
    case HeaderOf(k) => AddedHeaderCount(s, false, false, k);
    case EntryOf(pKey) => AddedEntryCount(s, false, false, pKey);
    case MoreSeparatorId => AddedTrailerFree(s, false, false);
    case MoreId => AddedTrailerFree(s, false, false);
  }

  lemma {:induction false} RemovalHeaderCount(s: seq<EditorField>, hostnameDeleted: bool, lastusedDeleted: bool, k: Kind)
    ensures multiset(Removal(s, hostnameDeleted, lastusedDeleted))[HeaderOf(k)]
      == if !Flagged(k, hostnameDeleted, lastusedDeleted) && HasKind(s, k) then 1 else 0
    decreases |s|
  {
    if s != [] {
      var e := s[|s| - 1];
      var h, l := hostnameDeleted || e.kind == Hostname, lastusedDeleted || e.kind == Lastused;
      var head := RemovedHeader(e, hostnameDeleted, lastusedDeleted) + [EntryOf(e.pKey)];
      assert Removal(s, hostnameDeleted, lastusedDeleted) == head + Removal(s[..|s| - 1], h, l);
      RemovalHeaderCount(s[..|s| - 1], h, l, k);
      ConcatCount(head, Removal(s[..|s| - 1], h, l), HeaderOf(k));
      LastOf(s, k, 0);
    }
  }

  lemma {:induction false} RemovalEntryCount(s: seq<EditorField>, hostnameDeleted: bool, lastusedDeleted: bool, pKey: nat)
    ensures multiset(Removal(s, hostnameDeleted, lastusedDeleted))[EntryOf(pKey)] == EntryCount(s, pKey)
    decreases |s|
  {
    if s != [] {
      var e := s[|s| - 1];
      var h, l := hostnameDeleted || e.kind == Hostname, lastusedDeleted || e.kind == Lastused;
      var head := RemovedHeader(e, hostnameDeleted, lastusedDeleted) + [EntryOf(e.pKey)];
      RemovalEntryCount(s[..|s| - 1], h, l, pKey);
      ConcatCount(head, Removal(s[..|s| - 1], h, l), EntryOf(pKey));
      LastOf(s, e.kind, pKey);
    }
  }

  lemma {:induction false} RemovalTrailerFree(s: seq<EditorField>, hostnameDeleted: bool, lastusedDeleted: bool)
    ensures MoreId !in Removal(s, hostnameDeleted, lastusedDeleted)
    ensures MoreSeparatorId !in Removal(s, hostnameDeleted, lastusedDeleted)
    decreases |s|
  {
    if s != [] {
      var e := s[|s| - 1];
      RemovalTrailerFree(s[..|s| - 1], hostnameDeleted || e.kind == Hostname, lastusedDeleted || e.kind == Lastused);
    }
  }

  lemma RemovalCount(s: seq<EditorField>, x: ItemId)
    ensures multiset(Removal(s, false, false))[x] == CandidateCount(s, false, false, x)
  {
    match x
    case HeaderOf(k) => RemovalHeaderCount(s, false, false, k);
    case EntryOf(pKey) => RemovalEntryCount(s, false, false, pKey);
    case MoreSeparatorId => RemovalTrailerFree(s, false, false);
    case MoreId => RemovalTrailerFree(s, false, false);
  }

  /** How often the closing ids hold x: the separator and "More" once each when there is a candidate. */
  function TrailerCount(s: seq<EditorField>, x: ItemId): nat
  {
    if |s| > 0 && (x == MoreSeparatorId || x == MoreId) then 1 else 0
  }

  lemma TrailerIdsCount(s: seq<EditorField>, x: ItemId)
    ensures multiset(TrailerIds(s))[x] == TrailerCount(s, x)
  {
    if |s| > 0 {
      assert TrailerIds(s) == [MoreSeparatorId] + [MoreId];
      assert multiset(TrailerIds(s)) == multiset{MoreSeparatorId, MoreId};
    }
  }

  lemma KeysOfLayout(s: seq<EditorField>)
    ensures Map(Key, Layout(s)) == AddedKeys(s, false, false) + TrailerIds(s)
  {
    KeysOfAdded(s, false, false);
    MapAppend(Key, Added(s, false, false), Trailer(s));
    if |s| > 0 {
      assert Map(Key, Trailer(s)) == [MoreSeparatorId, MoreId];
    }
  }

  /** How often addNewMenuItems creates an item with key x. */
  lemma LayoutCount(s: seq<EditorField>, x: ItemId)
    ensures multiset(Map(Key, Layout(s)))[x] == CandidateCount(s, false, false, x) + TrailerCount(s, x)
  {
    KeysOfLayout(s);
    AddedCount(s, x);
    TrailerIdsCount(s, x);
    ConcatCount(AddedKeys(s, false, false), TrailerIds(s), x);
  }

  /** How often removeCurrentMenuItems removes x. */
  lemma RemovalKeysCount(s: seq<EditorField>, x: ItemId)
    ensures multiset(RemovalKeys(s))[x] == CandidateCount(s, false, false, x) + TrailerCount(s, x)
  {
    RemovalCount(s, x);
    TrailerIdsCount(s, x);
    ConcatCount(TrailerIds(s), Removal(s, false, false), x);
  }

  /**
   * Removal undoes creation: removeCurrentMenuItems removes every id addNewMenuItems
   * created for the same candidates, as often as it was created, and nothing else.
   */
  lemma RemovalMatchesLayout(s: seq<EditorField>)
    ensures multiset(RemovalKeys(s)) == multiset(Map(Key, Layout(s)))
    ensures multiset(Map(IdString, RemovalKeys(s))) == multiset(Map(IdString, Map(Key, Layout(s))))
  {
    forall x ensures multiset(RemovalKeys(s))[x] == multiset(Map(Key, Layout(s)))[x] {
      LayoutCount(s, x);
      RemovalKeysCount(s, x);
    }
    MapMultiset(IdString, RemovalKeys(s), Map(Key, Layout(s)));
  }

  /** The ids the items are created with are the rendered keys. */
  lemma {:induction false} CreatedIdStrings(items: seq<SubmenuItem>)
    ensures Map(IdString, Map(Key, items)) == Map((p: MenuProps) => p.id, Map(Props, items))
    decreases |items|
  {
    if items != [] {
      CreatedIdStrings(items[1..]);
      PropsOfItem(items[0], Platform(true, false));
    }
  }

  /**
   * The ids created: one header per group present, the separator and "More" once each
   * exactly when there is a candidate, and one entry per candidate.
   */
  lemma LayoutKeyCounts(s: seq<EditorField>, k: Kind, pKey: nat)
    ensures multiset(Map(Key, Layout(s)))[HeaderOf(k)] == if exists j :: 0 <= j < |s| && s[j].kind == k then 1 else 0
    ensures multiset(Map(Key, Layout(s)))[MoreId] == if |s| > 0 then 1 else 0
    ensures multiset(Map(Key, Layout(s)))[MoreSeparatorId] == if |s| > 0 then 1 else 0
    ensures multiset(Map(Key, Layout(s)))[EntryOf(pKey)] == |set j | 0 <= j < |s| && s[j].pKey == pKey|
  {
    LayoutCount(s, HeaderOf(k));
    LayoutCount(s, MoreId);
    LayoutCount(s, MoreSeparatorId);
    LayoutCount(s, EntryOf(pKey));
    HasKindMeaning(s, k);
    EntryCountMeaning(s, pKey);
  }

  // ---------------------------------------------------------------------------
  // Order of the created items

  /** The candidates whose entries appear among items, in order. */
  function EntryFields(items: seq<SubmenuItem>): seq<EditorField>
    decreases |items|
  {
    if items == [] then []
    else (if items[0].Entry? then [items[0].field] else []) + EntryFields(items[1..])
  }

  lemma {:induction false} EntryFieldsAppend(a: seq<SubmenuItem>, b: seq<SubmenuItem>)
    ensures EntryFields(a + b) == EntryFields(a) + EntryFields(b)
    decreases |a|
  {
    if a != [] {
      assert (a + b)[1..] == a[1..] + b;
      EntryFieldsAppend(a[1..], b);
    } else {
      assert a + b == b;
    }
  }

  /** The entries of one step: a header contributes nothing, the entry its candidate. */
  lemma EntriesOfStep(hs: seq<SubmenuItem>, e: EditorField, rest: seq<SubmenuItem>)
    requires hs == [] || (|hs| == 1 && hs[0].Header?)
    ensures EntryFields(hs + [Entry(e)] + rest) == [e] + EntryFields(rest)
  {
    EntryFieldsAppend(hs + [Entry(e)], rest);
    EntryFieldsAppend(hs, [Entry(e)]);
    assert EntryFields([Entry(e)]) == [e];
    if hs != [] {
      assert hs[1..] == [];
    }
  }

  lemma {:induction false} AddedEntries(s: seq<EditorField>, hostnameAdded: bool, lastusedAdded: bool)
    ensures EntryFields(Added(s, hostnameAdded, lastusedAdded)) == s
    decreases |s|
  {
    if s != [] {
      var e := s[0];
      var h, l := hostnameAdded || e.kind == Hostname, lastusedAdded || e.kind == Lastused;
      var rest := Added(s[1..], h, l);
      AddedEntries(s[1..], h, l);
      EntriesOfStep(HeaderItems(e, hostnameAdded, lastusedAdded), e, rest);
      assert s == [e] + s[1..];
    }
  }

  /** addNewMenuItems creates one entry per candidate, in list order, and no other entry. */
  lemma LayoutEntries(s: seq<EditorField>)
    ensures EntryFields(Layout(s)) == s
  {
    AddedEntries(s, false, false);
    EntryFieldsAppend(Added(s, false, false), Trailer(s));
    if |s| > 0 {
      var t := Trailer(s);
      assert t[1..][1..] == [];
      assert EntryFields(t) == EntryFields(t[1..]) == EntryFields(t[1..][1..]) == [];
    }
  }

  /** The items for a list split in two: the second part starts with the flags the first part leaves. */
  lemma {:induction false} AddedSplit(a: seq<EditorField>, b: seq<EditorField>, hostnameAdded: bool, lastusedAdded: bool)
    ensures Added(a + b, hostnameAdded, lastusedAdded)
      == Added(a, hostnameAdded, lastusedAdded)
       + Added(b, hostnameAdded || HasKind(a, Hostname), lastusedAdded || HasKind(a, Lastused))
    decreases |a|
  {
    if a == [] {
      assert a + b == b;
    } else {
      var e := a[0];
      var h, l := hostnameAdded || e.kind == Hostname, lastusedAdded || e.kind == Lastused;
      var step := HeaderItems(e, hostnameAdded, lastusedAdded) + [Entry(e)];
      assert (a + b)[0] == e && (a + b)[1..] == a[1..] + b;
      assert Added(a + b, hostnameAdded, lastusedAdded) == step + Added(a[1..] + b, h, l);
      assert Added(a, hostnameAdded, lastusedAdded) == step + Added(a[1..], h, l);
      AddedSplit(a[1..], b, h, l);
      assert (h || HasKind(a[1..], Hostname)) == (hostnameAdded || HasKind(a, Hostname));
      assert (l || HasKind(a[1..], Lastused)) == (lastusedAdded || HasKind(a, Lastused));
      MoveFront(step, Added(a[1..], h, l), Added(b, hostnameAdded || HasKind(a, Hostname), lastusedAdded || HasKind(a, Lastused)));
    }
  }

  /** A header item only ever stands for a group that no earlier candidate opened. */
  lemma {:induction false} NoHeaderOfFlagged(s: seq<EditorField>, hostnameAdded: bool, lastusedAdded: bool, k: Kind)
    requires Flagged(k, hostnameAdded, lastusedAdded)
    ensures Header(k) !in Added(s, hostnameAdded, lastusedAdded)
    decreases |s|
  {
    if s != [] {
      var e := s[0];
      NoHeaderOfFlagged(s[1..], hostnameAdded || e.kind == Hostname, lastusedAdded || e.kind == Lastused, k);
    }
  }

  /** No candidate of group k among s: no item of the group among their items. */
  lemma {:induction false} NoItemOfAbsentKind(s: seq<EditorField>, hostnameAdded: bool, lastusedAdded: bool, k: Kind)
    requires !HasKind(s, k)
    ensures forall item :: item in Added(s, hostnameAdded, lastusedAdded) ==>
      item != Header(k) && (item.Entry? ==> item.field.kind != k)
    decreases |s|
  {
    if s != [] {
      var e := s[0];
      NoItemOfAbsentKind(s[1..], hostnameAdded || e.kind == Hostname, lastusedAdded || e.kind == Lastused, k);
    }
  }

  /**
   * The group's header comes first: for the first candidate of a group, the header sits
   * immediately before its entry, and no item of the group precedes the header.
   */
  lemma HeaderBeforeFirst(s: seq<EditorField>, i: nat)
    requires i < |s|
    requires forall j :: 0 <= j < i ==> s[j].kind != s[i].kind
    ensures var p := |Added(s[..i], false, false)|;
      && p + 1 < |Layout(s)| && Layout(s)[p] == Header(s[i].kind) && Layout(s)[p + 1] == Entry(s[i])
      && forall q :: 0 <= q < p ==>
           Layout(s)[q] != Header(s[i].kind) && (Layout(s)[q].Entry? ==> Layout(s)[q].field.kind != s[i].kind)
  {
    var k := s[i].kind;
    var before := s[..i];
    var pre := Added(before, false, false);
    HasKindMeaning(before, k);
    NoItemOfAbsentKind(before, false, false, k);
    assert s == before + s[i..];
    AddedSplit(before, s[i..], false, false);
    var h, l := HasKind(before, Hostname), HasKind(before, Lastused);
    assert !Flagged(k, h, l);
    assert s[i..][0] == s[i];
    var rest := Added(s[i..], h, l);
    assert rest[0] == Header(k) && rest[1] == Entry(s[i]);
    var p := |pre|;
    assert Layout(s) == pre + rest + Trailer(s);
    forall q | 0 <= q < p
      ensures Layout(s)[q] != Header(k) && (Layout(s)[q].Entry? ==> Layout(s)[q].field.kind != k)
    {
      assert Layout(s)[q] == pre[q];
      assert pre[q] in pre;
    }
  }
}
