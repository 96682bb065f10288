/**
 * The sidebar of the Cube pages (CubeWrapper.tsx): the menu groups and the menu-key to
 * {path, key} table built from the workspace list, the menu item that the current page
 * highlights, and what a click on a menu item does.
 */
module CubeMenu {
  import opened Wrappers
  import opened Text
  import opened Lists
  import opened OrderedMaps

  datatype WorkspaceType = Private | Public | Other(tag: string)

  datatype Workspace = Workspace(uid: string, name: string, kind: WorkspaceType)

  /** The parts of an antd menu item the logic uses. */
  datatype MenuItem = MenuItem(key: string, caption: string)

  /** Where a menu item navigates (`path`) and the path prefix that highlights it (`key`). */
  datatype MenuPath = MenuPath(path: string, key: string)

  /** `_.head(_.filter(workspaces, PRIVATE))`. */
  function PrivateSpace(workspaces: seq<Workspace>): (r: Option<Workspace>)
    ensures r.Some? <==> exists i :: 0 <= i < |workspaces| && workspaces[i].kind == Private
    ensures r.Some? ==> r.value in workspaces && r.value.kind == Private
    ensures r.Some? ==>
      exists i :: 0 <= i < |workspaces| && workspaces[i] == r.value &&
        forall j :: 0 <= j < i ==> workspaces[j].kind != Private
  {
    Find(workspaces, (w: Workspace) => w.kind == Private)
  }

  function PublicSpaces(workspaces: seq<Workspace>): (r: seq<Workspace>)
    ensures IsSubsequence(r, workspaces)
    ensures forall i :: 0 <= i < |r| ==> r[i].kind == Public
    ensures forall i :: 0 <= i < |workspaces| && workspaces[i].kind == Public ==> workspaces[i] in r
    ensures |r| == Count(workspaces, (w: Workspace) => w.kind == Public)
  {
    Filter(workspaces, (w: Workspace) => w.kind == Public)
  }

  function SpaceKey(uid: string): string {
    "/cube/space/" + uid
  }

  function SpacePath(uid: string): string {
    "/cube/space/" + uid + "/bots"
  }

  function TeamKey(uid: string): string {
    "menu-team-" + uid
  }

  const DefaultItems := [MenuItem("menu-chat", "Chat"), MenuItem("menu-personal", "Personal")]
  const ExploreItems := [MenuItem("menu-store-bot", "Bot Store"), MenuItem("menu-store-plugin", "Plugin Store")]

  /** The four table entries that do not depend on the public spaces, in insertion order. */
  function FixedEntries(privateUid: string): (r: seq<(string, MenuPath)>)
    ensures |r| == 4 && UniqueKeys(r)
  {
    var f := [ ("menu-chat", MenuPath("/cube/chat", "/cube/chat")),
               ("menu-personal", MenuPath(SpacePath(privateUid), SpaceKey(privateUid))),
               ("menu-store-bot", MenuPath("/cube/store/bot", "/cube/store/bot")),
               ("menu-store-plugin", MenuPath("/cube/store/plugin", "/cube/store/plugin")) ];
    assert f[0].0[5] == 'c' && f[1].0[5] == 'p' && f[2].0[6] == 't' && f[3].0[6] == 't';
    assert f[2].0[11] == 'b' && f[3].0[11] == 'p';
    f
  }

  function TeamEntries(publics: seq<Workspace>): (r: seq<(string, MenuPath)>)
    ensures |r| == |publics|
    ensures forall i :: 0 <= i < |r| ==>
      r[i] == (TeamKey(publics[i].uid), MenuPath(SpacePath(publics[i].uid), SpaceKey(publics[i].uid)))
  {
    seq(|publics|, i requires 0 <= i < |publics| => (TeamKey(publics[i].uid), MenuPath(SpacePath(publics[i].uid), SpaceKey(publics[i].uid))))
  }

  function TeamItems(publics: seq<Workspace>): (r: seq<MenuItem>)
    ensures |r| == |publics|
    ensures forall i :: 0 <= i < |r| ==> r[i].key == TeamKey(publics[i].uid) && r[i].caption == publics[i].name
  {
    seq(|publics|, i requires 0 <= i < |publics| => MenuItem(TeamKey(publics[i].uid), publics[i].name))
  }

  /** The table after every assignment of the effect, in order. */
  function KeyPathTable(privateUid: string, publics: seq<Workspace>): (r: seq<(string, MenuPath)>)
    ensures 4 <= |r| <= 4 + |publics|
    ensures forall i :: 0 <= i < 4 ==> r[i].0 == FixedEntries(privateUid)[i].0
  {
    PutAll(FixedEntries(privateUid), TeamEntries(publics))
  }

  /** The menu key of the last entry, in insertion order, whose `key` is a prefix of the
      pathname: the one whose `setMenuSelectedKeys` call comes last. */
  function LastMatch(table: seq<(string, MenuPath)>, pathname: string): (r: Option<string>)
    ensures r.None? ==> forall i :: 0 <= i < |table| ==> !StartsWith(pathname, table[i].1.key)
    ensures r.Some? ==> exists i :: 0 <= i < |table| && table[i].0 == r.value && StartsWith(pathname, table[i].1.key)
                         && forall j :: i < j < |table| ==> !StartsWith(pathname, table[j].1.key)
    decreases |table|
  {
    if table == [] then None
    else
      var n := |table| - 1;
      if StartsWith(pathname, table[n].1.key) then Some(table[n].0)
      else LastMatch(table[..n], pathname)
  }

  // ---------------------------------------------------------------------------------------
  // Facts about the table
  // ---------------------------------------------------------------------------------------

  /** A team key never equals a fixed key: they differ at the sixth character. */
  lemma TeamKeyNotFixed(uid: string, privateUid: string)
    ensures TeamKey(uid) !in KeySet(FixedEntries(privateUid))
  {
    var t := TeamKey(uid);
    assert t[5] == 't';
    var f := FixedEntries(privateUid);
    assert f[0].0[5] == 'c' && f[1].0[5] == 'p' && f[2].0[5] == 's' && f[3].0[5] == 's';
  }

  /** Team keys are equal only for equal uids. */
  lemma TeamKeyInjective(a: string, b: string)
    requires TeamKey(a) == TeamKey(b)
    ensures a == b
  {
    assert a == TeamKey(a)[10..];
  }

  /** Every fixed entry is in the table with its fixed path and key, whatever the public
      spaces are. */
  lemma FixedEntriesPresent(privateUid: string, publics: seq<Workspace>, i: nat)
    requires i < 4
    ensures Get(KeyPathTable(privateUid, publics), FixedEntries(privateUid)[i].0) == Some(FixedEntries(privateUid)[i].1)
  {
    var f := FixedEntries(privateUid);
    var t := TeamEntries(publics);
    var k := f[i].0;
    assert k !in KeySet(t) by {
      forall j | 0 <= j < |t| ensures t[j].0 != k {
        TeamKeyNotFixed(publics[j].uid, privateUid);
      }
    }
    GetPutAll(f, t, k);
  }

  /** Every public space has its team entry, with path `/cube/space/{uid}/bots` and key
      `/cube/space/{uid}`. */
  lemma TeamEntryPresent(privateUid: string, publics: seq<Workspace>, i: nat)
    requires i < |publics|
    ensures Get(KeyPathTable(privateUid, publics), TeamKey(publics[i].uid))
            == Some(MenuPath(SpacePath(publics[i].uid), SpaceKey(publics[i].uid)))
  {
    var t := TeamEntries(publics);
    var uid := publics[i].uid;
    assert t[i].0 == TeamKey(uid);
    GetPutAll(FixedEntries(privateUid), t, TeamKey(uid));
    var v := LastValue(t, TeamKey(uid));
    var j :| 0 <= j < |t| && t[j] == (TeamKey(uid), v.value);
    TeamKeyInjective(publics[j].uid, uid);
  }

  /** The table's keys are the four fixed keys and one team key per public space. */
  lemma TableKeys(privateUid: string, publics: seq<Workspace>)
    ensures KeySet(KeyPathTable(privateUid, publics))
            == {"menu-chat", "menu-personal", "menu-store-bot", "menu-store-plugin"}
               + set w | w in publics :: TeamKey(w.uid)
  {
    var t := TeamEntries(publics);
    assert KeySet(t) == set w | w in publics :: TeamKey(w.uid) by {
      forall k | k in KeySet(t) ensures k in set w | w in publics :: TeamKey(w.uid) {
        var j :| 0 <= j < |t| && t[j].0 == k;
        assert publics[j] in publics;
      }
      forall w | w in publics ensures TeamKey(w.uid) in KeySet(t) {
        var j :| 0 <= j < |publics| && publics[j] == w;
        assert t[j].0 == TeamKey(w.uid);
      }
    }
    var f := FixedEntries(privateUid);
    assert KeySet(f) == {"menu-chat", "menu-personal", "menu-store-bot", "menu-store-plugin"} by {
      assert f[0].0 == "menu-chat" && f[1].0 == "menu-personal" && f[2].0 == "menu-store-bot" && f[3].0 == "menu-store-plugin";
    }
  }

  /** Every fixed item of the rendered menu (the chat, personal and store entries) has its
      entry in the table, so a click on it navigates. */
  lemma FixedItemsNavigable(privateUid: string, publics: seq<Workspace>)
    ensures forall i :: 0 <= i < |DefaultItems| ==> Get(KeyPathTable(privateUid, publics), DefaultItems[i].key).Some?
    ensures forall i :: 0 <= i < |ExploreItems| ==> Get(KeyPathTable(privateUid, publics), ExploreItems[i].key).Some?
  {
    var t, f := KeyPathTable(privateUid, publics), FixedEntries(privateUid);
    forall i | 0 <= i < |DefaultItems| ensures Get(t, DefaultItems[i].key).Some? {
      assert DefaultItems[i].key == f[i].0;
      assert f[i].0 in KeySet(f);
    }
    forall i | 0 <= i < |ExploreItems| ensures Get(t, ExploreItems[i].key).Some? {
      assert ExploreItems[i].key == f[i + 2].0;
      assert f[i + 2].0 in KeySet(f);
    }
  }

  /** A click on a team item navigates to that space's bots page. */
  lemma TeamItemsNavigable(privateUid: string, publics: seq<Workspace>)
    ensures forall i :: 0 <= i < |publics| ==>
      Get(KeyPathTable(privateUid, publics), TeamItems(publics)[i].key)
        == Some(MenuPath(SpacePath(publics[i].uid), SpaceKey(publics[i].uid)))
  {
    forall i | 0 <= i < |publics|
      ensures Get(KeyPathTable(privateUid, publics), TeamItems(publics)[i].key)
              == Some(MenuPath(SpacePath(publics[i].uid), SpaceKey(publics[i].uid)))
    {
      TeamEntryPresent(privateUid, publics, i);
    }
  }

  /** One more public space: one more team item and one more assignment. */
  lemma TeamStep(privateUid: string, publics: seq<Workspace>, i: nat)
    requires i < |publics|
    ensures TeamItems(publics[..i + 1])
            == TeamItems(publics[..i]) + [MenuItem(TeamKey(publics[i].uid), publics[i].name)]
    ensures PutAll(FixedEntries(privateUid), TeamEntries(publics[..i + 1]))
            == Put(PutAll(FixedEntries(privateUid), TeamEntries(publics[..i])), TeamKey(publics[i].uid),
                   MenuPath(SpacePath(publics[i].uid), SpaceKey(publics[i].uid)))
  {
    var t := TeamEntries(publics[..i + 1]);
    assert t[..i] == TeamEntries(publics[..i]);
    assert t[i] == (TeamKey(publics[i].uid), MenuPath(SpacePath(publics[i].uid), SpaceKey(publics[i].uid)));
  }

  /** Every entry of the table is a fixed entry or the team entry of some public space. */
  lemma TableEntryOrigin(privateUid: string, publics: seq<Workspace>, i: nat)
    requires i < |KeyPathTable(privateUid, publics)|
    ensures var e := KeyPathTable(privateUid, publics)[i];
            e in FixedEntries(privateUid)
            || exists w :: w in publics && e == (TeamKey(w.uid), MenuPath(SpacePath(w.uid), SpaceKey(w.uid)))
  {
    var f := FixedEntries(privateUid);
    var t := TeamEntries(publics);
    PutAllEntriesFrom(f, t);
    var e := KeyPathTable(privateUid, publics)[i];
    if e !in f {
      var j :| 0 <= j < |t| && t[j] == e;
      assert publics[j] in publics;
    }
  }

  /** The table's keys are pairwise distinct. */
  lemma TableKeysUnique(privateUid: string, publics: seq<Workspace>)
    ensures UniqueKeys(KeyPathTable(privateUid, publics))
  {
  }

  /** On a bot store page, the only entry whose key prefixes the pathname is the bot store
      entry. */
  lemma BotStoreOnlyMatch(privateUid: string, publics: seq<Workspace>, rest: string, i: nat)
    requires i < |KeyPathTable(privateUid, publics)|
    requires StartsWith("/cube/store/bot" + rest, KeyPathTable(privateUid, publics)[i].1.key)
    ensures KeyPathTable(privateUid, publics)[i].0 == "menu-store-bot"
  {
    var e := KeyPathTable(privateUid, publics)[i];
    var f := FixedEntries(privateUid);
    var pathname := "/cube/store/bot" + rest;
    TableEntryOrigin(privateUid, publics, i);
    assert pathname[7] == 't' && pathname[6] == 's' && pathname[12] == 'b';
    assert f[0].1.key[6] == 'c' && f[1].1.key[7] == 'p' && f[3].1.key[12] == 'p';
    assert e == f[2];
  }

  /** On the bot store pages the scan selects the bot store item, whatever the workspaces:
      no other entry's key is a prefix of those paths. */
  lemma BotStoreSelected(privateUid: string, publics: seq<Workspace>, rest: string)
    ensures LastMatch(KeyPathTable(privateUid, publics), "/cube/store/bot" + rest) == Some("menu-store-bot")
  {
    var table := KeyPathTable(privateUid, publics);
    var pathname := "/cube/store/bot" + rest;
    var f := FixedEntries(privateUid);
    FixedEntriesPresent(privateUid, publics, 2);
    assert f[2] in table;
    assert StartsWith(pathname, f[2].1.key) by {
      assert pathname[..15] == "/cube/store/bot";
    }
    var r := LastMatch(table, pathname);
    if r.Some? {
      var i :| 0 <= i < |table| && table[i].0 == r.value && StartsWith(pathname, table[i].1.key);
      BotStoreOnlyMatch(privateUid, publics, rest, i);
    }
  }

  // ---------------------------------------------------------------------------------------
  // Prefix matching across path segments
  // ---------------------------------------------------------------------------------------

  /** `key` is a prefix of `pathname` that ends at a segment boundary. */
  predicate SegmentPrefix(pathname: string, key: string) {
    StartsWith(pathname, key) && (|pathname| == |key| || pathname[|key|] == '/')
  }

  predicate NoSlash(uid: string) {
    forall i :: 0 <= i < |uid| ==> uid[i] != '/'
  }

  /** The scan with segment-boundary matching: the last entry whose key is a whole-segment
      prefix of the pathname. */
  function LastSegmentMatch(table: seq<(string, MenuPath)>, pathname: string): (r: Option<string>)
    ensures r.None? ==> forall i :: 0 <= i < |table| ==> !SegmentPrefix(pathname, table[i].1.key)
    ensures r.Some? ==> exists i :: 0 <= i < |table| && table[i].0 == r.value && SegmentPrefix(pathname, table[i].1.key)
                         && forall j :: i < j < |table| ==> !SegmentPrefix(pathname, table[j].1.key)
    decreases |table|
  {
    if table == [] then None
    else
      var n := |table| - 1;
      if SegmentPrefix(pathname, table[n].1.key) then Some(table[n].0)
      else LastSegmentMatch(table[..n], pathname)
  }

  /** With slash-free uids, the space key of `other` is a whole-segment prefix of the bots
      page of `uid` only when the two uids are equal. */
  lemma SpaceKeySegment(uid: string, other: string)
    requires NoSlash(uid) && NoSlash(other)
    requires SegmentPrefix(SpacePath(uid), SpaceKey(other))
    ensures other == uid
  {
    var p := SpacePath(uid);
    var n := |other|;
    assert p == "/cube/space/" + (uid + "/bots");
    assert forall i :: 0 <= i < n ==> other[i] == p[12 + i];
    assert |p| == 12 + |uid| + 5;
    assert forall i :: 0 <= i < |uid| ==> p[12 + i] == uid[i];
    assert p[12 + |uid|] == '/';
    assert n == |uid|;
    assert forall i :: 0 <= i < n ==> other[i] == uid[i];
  }

  /** The entries of the table that match the bots page of `uid` at a segment boundary are
      exactly those whose key is that space's key. */
  lemma SegmentMatchIsOwnSpace(privateUid: string, publics: seq<Workspace>, uid: string, i: nat)
    requires NoSlash(privateUid) && NoSlash(uid)
    requires forall w :: w in publics ==> NoSlash(w.uid)
    requires i < |KeyPathTable(privateUid, publics)|
    requires SegmentPrefix(SpacePath(uid), KeyPathTable(privateUid, publics)[i].1.key)
    ensures KeyPathTable(privateUid, publics)[i].1.key == SpaceKey(uid)
  {
    var e := KeyPathTable(privateUid, publics)[i];
    var f := FixedEntries(privateUid);
    TableEntryOrigin(privateUid, publics, i);
    var p := SpacePath(uid);
    assert p[6] == 's' && p[7] == 'p';
    if e !in f {
      var w :| w in publics && e == (TeamKey(w.uid), MenuPath(SpacePath(w.uid), SpaceKey(w.uid)));
      SpaceKeySegment(uid, w.uid);
    } else {
      assert e == f[1] by {
        assert f[0].1.key[6] == 'c' && f[2].1.key[7] == 't' && f[3].1.key[7] == 't';
      }
      SpaceKeySegment(uid, privateUid);
    }
  }

  /** Every known space has an entry whose key is its space key. */
  lemma OwnSpaceEntry(privateUid: string, publics: seq<Workspace>, uid: string) returns (k: string)
    requires uid == privateUid || exists w :: w in publics && w.uid == uid
    ensures Get(KeyPathTable(privateUid, publics), k) == Some(MenuPath(SpacePath(uid), SpaceKey(uid)))
  {
    if uid == privateUid {
      FixedEntriesPresent(privateUid, publics, 1);
      k := "menu-personal";
    } else {
      var w :| w in publics && w.uid == uid;
      var j :| 0 <= j < |publics| && publics[j] == w;
      TeamEntryPresent(privateUid, publics, j);
      k := TeamKey(uid);
    }
  }

  /** With segment-boundary matching, the bots page of any known space selects an item of
      that very space. */
  lemma SegmentMatchSelectsOwnSpace(privateUid: string, publics: seq<Workspace>, uid: string)
    requires NoSlash(privateUid) && NoSlash(uid)
    requires forall w :: w in publics ==> NoSlash(w.uid)
    requires uid == privateUid || exists w :: w in publics && w.uid == uid
    ensures var table := KeyPathTable(privateUid, publics);
            var r := LastSegmentMatch(table, SpacePath(uid));
            r.Some? && Get(table, r.value).Some? && Get(table, r.value).value.key == SpaceKey(uid)
  {
    var table := KeyPathTable(privateUid, publics);
    var pathname := SpacePath(uid);
    var k := OwnSpaceEntry(privateUid, publics, uid);
    var v := MenuPath(SpacePath(uid), SpaceKey(uid));
    assert (k, v) in table;
    assert SegmentPrefix(pathname, v.key) by {
      assert pathname == SpaceKey(uid) + "/bots";
      assert pathname[..|SpaceKey(uid)|] == SpaceKey(uid);
    }
    TableKeysUnique(privateUid, publics);
    var r := LastSegmentMatch(table, pathname);
    if r.Some? {
      var i :| 0 <= i < |table| && table[i].0 == r.value && SegmentPrefix(pathname, table[i].1.key);
      SegmentMatchIsOwnSpace(privateUid, publics, uid, i);
    }
  }

  /** As written, plain prefix matching lets the space `u1` claim the pages of the space
      `u10`: on `/cube/space/u10/bots` the team item of `u1` is selected, not Personal. */
  lemma PrefixMatchSelectsOtherSpace()
    ensures var publics := [Workspace("u1", "Team", Public)];
            var table := KeyPathTable("u10", publics);
            var r := LastMatch(table, SpacePath("u10"));
            r == Some(TeamKey("u1")) && Get(table, r.value).value.key != SpaceKey("u10")
  {
    var publics := [Workspace("u1", "Team", Public)];
    var f := FixedEntries("u10");
    var t := TeamEntries(publics);
    var team := (TeamKey("u1"), MenuPath(SpacePath("u1"), SpaceKey("u1")));
    assert t == [team];
    TeamKeyNotFixed("u1", "u10");
    assert UniqueKeys(f + t);
    PutAllFresh(f, t);
    var table := f + t;
    assert table[4] == team;
    assert StartsWith(SpacePath("u10"), SpaceKey("u1")) by {
      assert SpacePath("u10")[..|SpaceKey("u1")|] == SpaceKey("u1");
    }
    assert table[..4] == f;
    TeamEntryPresent("u10", publics, 0);
    assert |SpaceKey("u1")| != |SpaceKey("u10")|;
  }

  // ---------------------------------------------------------------------------------------
  // The component's state
  // ---------------------------------------------------------------------------------------

  class CubeWrapper {
    var defaultItems: seq<MenuItem>
    var exploreItems: seq<MenuItem>
    var teamItems: seq<MenuItem>
    var keyPath: seq<(string, MenuPath)>
    var selectedKeys: seq<string>
    /** The paths passed to `history.push`, in order. */
    var navigations: seq<string>

    constructor()
      ensures defaultItems == [] && exploreItems == [] && teamItems == []
      ensures keyPath == [] && selectedKeys == [] && navigations == []
    {
      defaultItems, exploreItems, teamItems := [], [], [];
      keyPath, selectedKeys, navigations := [], [], [];
    }

    /** The effect run with the workspace list: build the items and the table, then select
        the menu item of `pathname`. Without a private workspace the effect throws on
        `privateSpace!.uid` before setting anything; `ok` is then false. */
    method LoadMenu(workspaces: seq<Workspace>, pathname: string) returns (ok: bool)
      modifies this
      ensures ok <==> PrivateSpace(workspaces).Some?
      ensures !ok ==> (defaultItems == old(defaultItems) && exploreItems == old(exploreItems)
                       && teamItems == old(teamItems) && keyPath == old(keyPath)
                       && selectedKeys == old(selectedKeys))
      ensures ok ==>
        var publics := PublicSpaces(workspaces);
        && defaultItems == DefaultItems && exploreItems == ExploreItems
        && teamItems == TeamItems(publics)
        && keyPath == KeyPathTable(PrivateSpace(workspaces).value.uid, publics)
        && selectedKeys == match LastMatch(keyPath, pathname)
                           case Some(k) => [k]
                           case None => old(selectedKeys)
      ensures navigations == old(navigations)
    {
      var privateSpace := PrivateSpace(workspaces);
      var publics := PublicSpaces(workspaces);
      if privateSpace.None? {
        return false;
      }
      var teams, table := BuildTable(privateSpace.value.uid, publics);
      defaultItems, exploreItems, teamItems := DefaultItems, ExploreItems, teams;
      keyPath := table;
      Highlight(pathname);
      return true;
    }

    /** The local arrays and the `keyPath` object the effect builds: the fixed entries, then
        one `menu-team-{uid}` item and assignment per public space, in list order. */
    static method BuildTable(privateUid: string, publics: seq<Workspace>)
      returns (teams: seq<MenuItem>, table: seq<(string, MenuPath)>)
      ensures teams == TeamItems(publics)
      ensures table == KeyPathTable(privateUid, publics)
    {
      table := FixedEntries(privateUid);
      teams := [];
      var i := 0;
      while i < |publics|
        invariant 0 <= i <= |publics|
        invariant teams == TeamItems(publics[..i])
        invariant table == PutAll(FixedEntries(privateUid), TeamEntries(publics[..i]))
      {
        var space := publics[i];
        teams := teams + [MenuItem(TeamKey(space.uid), space.name)];
        table := Put(table, TeamKey(space.uid), MenuPath(SpacePath(space.uid), SpaceKey(space.uid)));
        TeamStep(privateUid, publics, i);
        i := i + 1;
      }
      assert publics[..i] == publics;
    }

    /** The scan over `keyPath` in insertion order: every entry whose key prefixes the
        pathname overwrites the selection, so the last such entry wins. */
    method Highlight(pathname: string)
      modifies this
      ensures selectedKeys == match LastMatch(keyPath, pathname)
                              case Some(k) => [k]
                              case None => old(selectedKeys)
      ensures defaultItems == old(defaultItems) && exploreItems == old(exploreItems)
      ensures teamItems == old(teamItems) && keyPath == old(keyPath)
      ensures navigations == old(navigations)
    {
      var j := 0;
      while j < |keyPath|
        invariant 0 <= j <= |keyPath|
        invariant selectedKeys == match LastMatch(keyPath[..j], pathname)
                                  case Some(k) => [k]
                                  case None => old(selectedKeys)
        invariant defaultItems == old(defaultItems) && exploreItems == old(exploreItems)
        invariant teamItems == old(teamItems) && keyPath == old(keyPath)
        invariant navigations == old(navigations)
      {
        if StartsWith(pathname, keyPath[j].1.key) {
          selectedKeys := [keyPath[j].0];
        }
        assert keyPath[..j + 1][..j] == keyPath[..j];
        j := j + 1;
      }
      assert keyPath[..j] == keyPath;
    }

    /** `onMenuClick`: select the clicked key, and navigate when the table knows it. */
    method OnMenuClick(key: string)
      modifies this
      ensures selectedKeys == [key]
      ensures navigations == old(navigations) + match Get(keyPath, key)
                                                case Some(p) => [p.path]
                                                case None => []
      ensures defaultItems == old(defaultItems) && exploreItems == old(exploreItems)
      ensures teamItems == old(teamItems) && keyPath == old(keyPath)
    {
      selectedKeys := [key];
      var entry := Get(keyPath, key);
      if entry.Some? {
        navigations := navigations + [entry.value.path];
      }
    }
  }
}
