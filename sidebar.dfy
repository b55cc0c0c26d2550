/**
 * Role-based sidebar menus (controllers/sidebar.controller.js). A user sees the menus that list
 * the user's role, and in each of them only the submenu entries that list it too.
 */
module Sidebar {
  import opened Common
  import opened Store
  import opened Collections

  /** The role list of sidebar.controller.js:26: `[userType]` when it is set and non-empty, else empty. */
  function UserRoles(userType: Option<string>): (roles: seq<string>)
    ensures |roles| <= 1
    ensures roles == [] <==> userType.None? || userType.value == ""
    ensures roles != [] ==> roles[0] == userType.value
  {
    if userType.Some? && userType.value != "" then [userType.value] else []
  }

  /** The `roles: { $in: userRoles }` query: some role of the menu is one of the user's roles. */
  predicate SharesRole(menuRoles: seq<string>, roles: seq<string>) {
    exists i, j :: 0 <= i < |menuRoles| && 0 <= j < |roles| && menuRoles[i] == roles[j]
  }

  /** `roles.includes(req.user.userType)`; an unset user type is included in no list of strings. */
  predicate Includes(roles: seq<string>, userType: Option<string>) {
    userType.Some? && userType.value in roles
  }

  /** The ids of the menus the query at sidebar.controller.js:29-31 returns, in store order. */
  function MenuIds(menus: map<Id, SidebarMenu>, userType: Option<string>): seq<Id> {
    Filter(StoreOrder(menus.Keys), (id: Id) => id in menus && SharesRole(menus[id].roles, UserRoles(userType)))
  }

  /**
   * A menu is returned exactly when it lists the user's role and that role is set and non-empty;
   * each menu at most once, in store order. With no role, no menu is returned.
   */
  lemma MenuIdsExact(menus: map<Id, SidebarMenu>, userType: Option<string>)
    ensures forall id :: id in MenuIds(menus, userType) <==>
      id in menus && userType.Some? && userType.value != "" && userType.value in menus[id].roles
    ensures Increasing(MenuIds(menus, userType))
    ensures UserRoles(userType) == [] ==> MenuIds(menus, userType) == []
  {
    var keep := (id: Id) => id in menus && SharesRole(menus[id].roles, UserRoles(userType));
    FilterIncreasing(StoreOrder(menus.Keys), keep);
    forall id | id in menus
      ensures SharesRole(menus[id].roles, UserRoles(userType)) <==>
        userType.Some? && userType.value != "" && userType.value in menus[id].roles
    {
      var roles := menus[id].roles;
      if userType.Some? && userType.value != "" && userType.value in roles {
        var i :| 0 <= i < |roles| && roles[i] == userType.value;
        assert roles[i] == UserRoles(userType)[0];
      }
    }
    if UserRoles(userType) == [] {
      FilterDropsAll(StoreOrder(menus.Keys), keep);
    }
  }

  /** The submenu filter of sidebar.controller.js:35. */
  function VisibleSubmenu(submenu: seq<Submenu>, userType: Option<string>): (r: seq<Submenu>)
    ensures forall sub :: sub in r <==> sub in submenu && Includes(sub.roles, userType)
  {
    Filter(submenu, (sub: Submenu) => Includes(sub.roles, userType))
  }

  /**
   * The submenu filter keeps the entries in their original order (it distributes over concatenation),
   * and applying it twice gives the result of applying it once.
   */
  lemma VisibleSubmenuOrderAndIdempotent(a: seq<Submenu>, b: seq<Submenu>, userType: Option<string>)
    ensures VisibleSubmenu(a + b, userType) == VisibleSubmenu(a, userType) + VisibleSubmenu(b, userType)
    ensures VisibleSubmenu(VisibleSubmenu(a, userType), userType) == VisibleSubmenu(a, userType)
  {
    var keep := (sub: Submenu) => Includes(sub.roles, userType);
    FilterConcat(a, b, keep);
    FilterIdempotent(a, keep);
  }

  /** The menu documents behind a list of menu ids. */
  function MenusAt(menus: map<Id, SidebarMenu>, ids: seq<Id>): (r: seq<SidebarMenu>)
    requires forall id :: id in ids ==> id in menus
    ensures |r| == |ids| && forall i :: 0 <= i < |ids| ==> r[i] == menus[ids[i]]
  {
    seq(|ids|, i requires 0 <= i < |ids| => assert ids[i] in ids; menus[ids[i]])
  }

  /** Each menu with its submenu filtered for `userType`. */
  function WithVisibleSubmenus(found: seq<SidebarMenu>, userType: Option<string>): (r: seq<SidebarMenu>)
    ensures |r| == |found|
    ensures forall i :: 0 <= i < |found| ==>
      r[i] == found[i].(submenu := VisibleSubmenu(found[i].submenu, userType))
  {
    seq(|found|, i requires 0 <= i < |found| => found[i].(submenu := VisibleSubmenu(found[i].submenu, userType)))
  }

  /** The response of getSidebarMenus: the returned menus, each with its submenu filtered. */
  function Shown(menus: map<Id, SidebarMenu>, userType: Option<string>): seq<SidebarMenu> {
    var ids := MenuIds(menus, userType);
    WithVisibleSubmenus(MenusAt(menus, ids), userType)
  }

  /**
   * getSidebarMenus (sidebar.controller.js:24-42): queries the menus for the user's role, then the
   * `forEach` of lines 34-36 overwrites each result's submenu with its filtered version, in place.
   */
  method GetSidebarMenus(db: Database, user: AuthUser) returns (result: array<SidebarMenu>)
    ensures fresh(result)
    ensures result[..] == Shown(db.menus, user.userType)
  {
    var found := MenusAt(db.menus, MenuIds(db.menus, user.userType));
    result := new SidebarMenu[|found|](i requires 0 <= i < |found| => found[i]);
    FilterSubmenusInPlace(result, found, user.userType);
    assert result[..] == WithVisibleSubmenus(found, user.userType);
  }

  /** The `forEach` of sidebar.controller.js:34-36 over the query results. */
  method FilterSubmenusInPlace(result: array<SidebarMenu>, found: seq<SidebarMenu>, userType: Option<string>)
    requires result[..] == found
    modifies result
    ensures result[..] == WithVisibleSubmenus(found, userType)
  {
    var i := 0;
    while i < result.Length
      invariant 0 <= i <= result.Length == |found|
      invariant forall k :: 0 <= k < i ==>
        result[k] == found[k].(submenu := VisibleSubmenu(found[k].submenu, userType))
      invariant forall k :: i <= k < result.Length ==> result[k] == found[k]
    {
      result[i] := result[i].(submenu := VisibleSubmenu(result[i].submenu, userType));
      i := i + 1;
    }
  }

  /** The fields a menu update may carry; an absent field keeps its value (`findByIdAndUpdate(id, req.body)`). */
  datatype MenuPatch = MenuPatch(
    title: Option<string>, route: Option<string>, roles: Option<seq<string>>, submenu: Option<seq<Submenu>>)

  function Patched(menu: SidebarMenu, patch: MenuPatch): (r: SidebarMenu)
    ensures r.title == (if patch.title.Some? then patch.title.value else menu.title)
    ensures r.route == (if patch.route.Some? then patch.route.value else menu.route)
    ensures r.roles == (if patch.roles.Some? then patch.roles.value else menu.roles)
    ensures r.submenu == (if patch.submenu.Some? then patch.submenu.value else menu.submenu)
  {
    SidebarMenu(
      if patch.title.Some? then patch.title.value else menu.title,
      if patch.route.Some? then patch.route.value else menu.route,
      if patch.roles.Some? then patch.roles.value else menu.roles,
      if patch.submenu.Some? then patch.submenu.value else menu.submenu)
  }

  /** updateSidebarMenu (sidebar.controller.js:44-58): NotFound for a missing id, else the patch is applied. */
  method UpdateSidebarMenu(db: Database, id: Id, patch: MenuPatch) returns (r: Result<SidebarMenu>)
    modifies db`menus
    ensures id !in old(db.menus) ==> r == Err(NotFound) && db.menus == old(db.menus)
    ensures id in old(db.menus) ==>
      r == Ok(Patched(old(db.menus)[id], patch)) && db.menus == old(db.menus)[id := r.value]
  {
    if id !in db.menus {
      return Err(NotFound);
    }
    var updated := Patched(db.menus[id], patch);
    db.menus := db.menus[id := updated];
    r := Ok(updated);
  }

  /** deleteSidebarMenu (sidebar.controller.js:60-70): NotFound for a missing id, else exactly that menu goes. */
  method DeleteSidebarMenu(db: Database, id: Id) returns (r: Result<SidebarMenu>)
    modifies db`menus
    ensures id !in old(db.menus) ==> r == Err(NotFound) && db.menus == old(db.menus)
    ensures id in old(db.menus) ==> r == Ok(old(db.menus)[id]) && db.menus == old(db.menus) - {id}
  {
    if id !in db.menus {
      return Err(NotFound);
    }
    r := Ok(db.menus[id]);
    db.menus := db.menus - {id};
  }
}
