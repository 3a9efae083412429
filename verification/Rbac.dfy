/** Role-based access control: how permission rows decide, and the cache in front of them. */
module Rbac {
  import opened Wrappers

  datatype Ability = Ability(name: string, entityType: Option<string>, entityID: Option<nat>, scope: Option<int>)

  datatype Permission = Permission(forbidden: bool, ability: Option<Ability>)

  datatype RestrictedRole = RestrictedRole(id: nat, toID: Option<nat>, toType: Option<string>)

  /** Who a permission row belongs to. */
  datatype Owner = User(id: nat) | Role(id: nat)

  type Rows = map<Owner, seq<Permission>>

  type ByName = map<string, seq<Permission>>

  /** What is being asked for: the ability everywhere, or on one entity. */
  datatype Target = Everywhere | OnEntity(entityType: string, entityID: nat)

  predicate Covers(a: Ability, target: Target) {
    || (a.entityType == None && a.entityID == None)
    || (target.OnEntity? && a.entityType == Some(target.entityType) &&
        (a.entityID == None || a.entityID == Some(target.entityID)))
  }

  // ---------------------------------------------------------------------------
  // How rows decide
  // ---------------------------------------------------------------------------

  datatype Verdict = Granted | Denied | Undecided

  predicate Grants(p: Permission, target: Target) {
    !p.forbidden && p.ability.Some? && Covers(p.ability.value, target)
  }

  predicate Decides(p: Permission, target: Target) { p.forbidden || Grants(p, target) }

  /** The first row that forbids or grants decides. */
  function First(rows: seq<Permission>, target: Target): Verdict {
    if rows == [] then Undecided
    else if rows[0].forbidden then Denied
    else if Grants(rows[0], target) then Granted
    else First(rows[1..], target)
  }

  predicate Names(p: Permission, name: string) { p.ability.Some? && p.ability.value.name == name }

  function RowsFor(rows: seq<Permission>, name: string): seq<Permission> {
    if rows == [] then []
    else (if Names(rows[0], name) then [rows[0]] else []) + RowsFor(rows[1..], name)
  }

  predicate Allowed(rows: seq<Permission>, name: string, target: Target) {
    First(RowsFor(rows, name), target) == Granted
  }

  predicate AllowedSomewhere(rows: seq<Permission>, name: string) {
    exists k :: 0 <= k < |rows| && Names(rows[k], name) && Grants(rows[k], Everywhere)
  }

  lemma {:induction false} FirstConcat(a: seq<Permission>, b: seq<Permission>, target: Target)
    ensures First(a + b, target) == if First(a, target) == Undecided then First(b, target) else First(a, target)
  {
    if a == [] {
      assert a + b == b;
    } else {
      assert (a + b)[1..] == a[1..] + b;
      FirstConcat(a[1..], b, target);
    }
  }

  lemma {:induction false} RowsForConcat(a: seq<Permission>, b: seq<Permission>, name: string)
    ensures RowsFor(a + b, name) == RowsFor(a, name) + RowsFor(b, name)
  {
    hide Names;
    if a == [] {
      assert a + b == b;
    } else {
      var head := if Names(a[0], name) then [a[0]] else [];
      assert (a + b)[0] == a[0] && (a + b)[1..] == a[1..] + b;
      RowsForConcat(a[1..], b, name);
      assert RowsFor(a + b, name) == head + (RowsFor(a[1..], name) + RowsFor(b, name));
      Regroup(head, RowsFor(a[1..], name), RowsFor(b, name));
    }
  }

  lemma Regroup(a: seq<Permission>, b: seq<Permission>, c: seq<Permission>)
    ensures (a + b) + c == a + (b + c)
  {
  }

  /** Whether the rows decide at all does not depend on their order. */
  lemma {:induction false} UndecidedIff(rows: seq<Permission>, name: string, target: Target)
    ensures First(RowsFor(rows, name), target) == Undecided <==>
            forall k :: 0 <= k < |rows| ==> !(Names(rows[k], name) && Decides(rows[k], target))
  {
    if rows != [] {
      UndecidedIff(rows[1..], name, target);
      assert rows == [rows[0]] + rows[1..];
      assert RowsFor([rows[0]], name) == if Names(rows[0], name) then [rows[0]] else [];
      FirstConcat(RowsFor([rows[0]], name), RowsFor(rows[1..], name), target);
    }
  }

  lemma {:induction false} GrantedNeedsGrant(rows: seq<Permission>, name: string, target: Target) returns (k: nat)
    requires Allowed(rows, name, target)
    ensures k < |rows| && Names(rows[k], name) && Grants(rows[k], target)
  {
    if Names(rows[0], name) && Grants(rows[0], target) {
      k := 0;
    } else {
      assert RowsFor(rows, name) == (if Names(rows[0], name) then [rows[0]] else []) + RowsFor(rows[1..], name);
      FirstConcat(if Names(rows[0], name) then [rows[0]] else [], RowsFor(rows[1..], name), target);
      k := GrantedNeedsGrant(rows[1..], name, target);
      k := k + 1;
    }
  }

  /** An ability granted everywhere is granted on every entity. */
  lemma {:induction false} EverywhereCovers(rows: seq<Permission>, target: Target)
    requires First(rows, Everywhere) == Granted
    ensures First(rows, target) == Granted
  {
    if !Grants(rows[0], target) { EverywhereCovers(rows[1..], target); }
  }

  predicate CanAll(rows: seq<Permission>, names: seq<string>, target: Target) {
    forall i :: 0 <= i < |names| ==> Allowed(rows, names[i], target)
  }

  predicate CanSome(rows: seq<Permission>, names: seq<string>) {
    exists i :: 0 <= i < |names| && AllowedSomewhere(rows, names[i])
  }

  /** What a user can do everywhere the user can do on each entity and, unless nothing is
      asked, passes the any-of check too. */
  lemma CanImplies(rows: seq<Permission>, names: seq<string>, target: Target)
    requires CanAll(rows, names, Everywhere)
    ensures CanAll(rows, names, target)
    ensures names != [] ==> CanSome(rows, names)
  {
    forall i | 0 <= i < |names| ensures Allowed(rows, names[i], target) {
      EverywhereCovers(RowsFor(rows, names[i]), target);
    }
    if names != [] {
      assert Allowed(rows, names[0], Everywhere);
      var k := GrantedNeedsGrant(rows, names[0], Everywhere);
      assert AllowedSomewhere(rows, names[0]);
    }
  }

  // ---------------------------------------------------------------------------
  // The rows of a user: own rows first, then those of the roles
  // ---------------------------------------------------------------------------

  predicate Restricted(role: RestrictedRole) { role.toType.Some? || role.toID.Some? }

  /** Whether a row of a restricted role counts; one restricted to an ID alone has none. */
  predicate Kept(role: RestrictedRole, p: Permission) {
    if role.toType.Some? && role.toID.None? then
      p.ability.Some? && p.ability.value.entityType == role.toType
    else if role.toType.Some? && role.toID.Some? then
      p.ability.Some? && p.ability.value.entityID == role.toID
    else
      !Restricted(role)
  }

  function RoleRows(role: RestrictedRole, rows: seq<Permission>): seq<Permission> {
    if rows == [] then []
    else
      var last := rows[|rows| - 1];
      RoleRows(role, rows[..|rows| - 1]) + (if Kept(role, last) then [last] else [])
  }

  function RowsOf(rows: Rows, owner: Owner): seq<Permission> { if owner in rows then rows[owner] else [] }

  function InheritedRows(rows: Rows, roles: seq<RestrictedRole>): seq<Permission> {
    if roles == [] then []
    else
      var last := roles[|roles| - 1];
      InheritedRows(rows, roles[..|roles| - 1]) + RoleRows(last, RowsOf(rows, Role(last.id)))
  }

  function AllRows(rows: Rows, roles: seq<RestrictedRole>, user: nat): seq<Permission> {
    RowsOf(rows, User(user)) + InheritedRows(rows, roles)
  }

  /** The grouping agrees with the rows it was made from. */
  ghost predicate Groups(m: ByName, rows: seq<Permission>) {
    forall name :: RowsFor(rows, name) == if name in m then m[name] else []
  }

  lemma RowsForSnoc(rows: seq<Permission>, p: Permission, name: string)
    ensures RowsFor(rows + [p], name) == RowsFor(rows, name) + (if Names(p, name) then [p] else [])
  {
    RowsForConcat(rows, [p], name);
    assert RowsFor([p], name) == if Names(p, name) then [p] else [];
  }

  lemma {:induction false} RoleRowsWhole(role: RestrictedRole, rows: seq<Permission>)
    requires !Restricted(role)
    ensures RoleRows(role, rows) == rows
  {
    if rows != [] { RoleRowsWhole(role, rows[..|rows| - 1]); }
  }

  lemma {:induction false} RoleRowsNone(role: RestrictedRole, rows: seq<Permission>)
    requires role.toType.None? && role.toID.Some?
    ensures RoleRows(role, rows) == []
  {
    if rows != [] { RoleRowsNone(role, rows[..|rows| - 1]); }
  }

  /** Changing the rows of a user does not change what roles give. */
  lemma {:induction false} InheritedSame(a: Rows, b: Rows, roles: seq<RestrictedRole>)
    requires forall id :: RowsOf(a, Role(id)) == RowsOf(b, Role(id))
    ensures InheritedRows(a, roles) == InheritedRows(b, roles)
  {
    if roles != [] { InheritedSame(a, b, roles[..|roles| - 1]); }
  }

  function Verdicts(a: Verdict, b: Verdict): Verdict { if a == Undecided then b else a }

  /** The first role that has a verdict gives it. */
  function RolesDecide(rows: Rows, roles: seq<RestrictedRole>, name: string, target: Target): Verdict {
    if roles == [] then Undecided
    else
      Verdicts(First(RowsFor(RoleRows(roles[0], RowsOf(rows, Role(roles[0].id))), name), target),
               RolesDecide(rows, roles[1..], name, target))
  }

  lemma {:induction false} RolesInTurn(rows: Rows, roles: seq<RestrictedRole>, name: string, target: Target)
    ensures First(RowsFor(InheritedRows(rows, roles), name), target) == RolesDecide(rows, roles, name, target)
  {
    hide RowsFor, First, RoleRows;
    if roles == [] {
      NoRows(name, target);
    } else {
      var own, rest := RoleRows(roles[0], RowsOf(rows, Role(roles[0].id))), InheritedRows(rows, roles[1..]);
      RolesInTurn(rows, roles[1..], name, target);
      FirstRoleFirst(rows, roles);
      RowsForConcat(own, rest, name);
      FirstConcat(RowsFor(own, name), RowsFor(rest, name), target);
    }
  }

  lemma NoRows(name: string, target: Target)
    ensures First(RowsFor([], name), target) == Undecided
  {
  }

  lemma {:induction false} FirstRoleFirst(rows: Rows, roles: seq<RestrictedRole>)
    requires roles != []
    ensures InheritedRows(rows, roles) ==
            RoleRows(roles[0], RowsOf(rows, Role(roles[0].id))) + InheritedRows(rows, roles[1..])
  {
    hide RoleRows;
    var init, last := roles[..|roles| - 1], roles[|roles| - 1];
    if init != [] {
      FirstRoleFirst(rows, init);
      assert roles[1..][..|roles| - 2] == init[1..];
      var head, own := RoleRows(roles[0], RowsOf(rows, Role(roles[0].id))), RoleRows(last, RowsOf(rows, Role(last.id)));
      assert InheritedRows(rows, roles[1..]) == InheritedRows(rows, init[1..]) + own;
      Regroup(head, InheritedRows(rows, init[1..]), own);
    }
  }

  /** A user's own rows decide before those of the roles, and the roles in the order in which
      they are held. */
  lemma OwnRowsFirst(rows: Rows, roles: seq<RestrictedRole>, user: nat, name: string, target: Target)
    ensures First(RowsFor(AllRows(rows, roles, user), name), target) ==
            Verdicts(First(RowsFor(RowsOf(rows, User(user)), name), target), RolesDecide(rows, roles, name, target))
  {
    hide RowsFor, First, InheritedRows, RolesDecide;
    var own, inherited := RowsOf(rows, User(user)), InheritedRows(rows, roles);
    RolesInTurn(rows, roles, name, target);
    RowsForConcat(own, inherited, name);
    FirstConcat(RowsFor(own, name), RowsFor(inherited, name), target);
  }

  // ---------------------------------------------------------------------------
  // Revoke, allow, forbid
  // ---------------------------------------------------------------------------

  function AbilityFor(name: string, entityID: nat, entityType: string): Ability {
    Ability(name, Some(entityType), Some(entityID), None)
  }

  function AbilitiesFor(names: seq<string>, entityID: nat, entityType: string): (r: seq<Ability>)
    ensures |r| == |names| && forall i :: 0 <= i < |r| ==> r[i] == AbilityFor(names[i], entityID, entityType)
  {
    seq(|names|, i requires 0 <= i < |names| => AbilityFor(names[i], entityID, entityType))
  }

  function Survivors(rows: seq<Permission>, abilities: seq<Ability>): (r: seq<Permission>)
    ensures forall p :: p in r <==> p in rows && !(p.ability.Some? && p.ability.value in abilities)
  {
    if rows == [] then []
    else
      var last := rows[|rows| - 1];
      assert forall p :: p in rows <==> p in rows[..|rows| - 1] || p == last;
      Survivors(rows[..|rows| - 1], abilities) +
      (if last.ability.Some? && last.ability.value in abilities then [] else [last])
  }

  function RowsWith(abilities: seq<Ability>, forbidden: bool): (r: seq<Permission>)
    ensures |r| == |abilities| && forall i :: 0 <= i < |r| ==> r[i] == Permission(forbidden, Some(abilities[i]))
  {
    seq(|abilities|, i requires 0 <= i < |abilities| => Permission(forbidden, Some(abilities[i])))
  }

  /** The abilities still allowed on the entity by these rows. */
  function StillAllowed(rows: seq<Permission>, abilities: seq<Ability>, target: Target): (r: seq<Ability>)
    ensures forall a :: a in r <==> a in abilities && Allowed(rows, a.name, target)
  {
    if abilities == [] then []
    else
      var last := abilities[|abilities| - 1];
      assert forall a :: a in abilities <==> a in abilities[..|abilities| - 1] || a == last;
      StillAllowed(rows, abilities[..|abilities| - 1], target) + (if Allowed(rows, last.name, target) then [last] else [])
  }

  /** After a revoke-or-forbid, with the user's rows in any order: an ability is allowed on
      the entity exactly when the user's own rows grant it before any of them forbids it.
      What the roles grant no longer matters. */
  lemma RevokedExactly(own: seq<Permission>, inherited: seq<Permission>, names: seq<string>,
                       entityID: nat, entityType: string, after: seq<Permission>, name: string)
    requires name in names
    requires var abilities := AbilitiesFor(names, entityID, entityType);
             var target := OnEntity(entityType, entityID);
             var left := Survivors(own, abilities);
             var forbidden := StillAllowed(left + inherited, abilities, target);
             forall p :: p in after <==> p in left || p in RowsWith(forbidden, true)
    ensures var target := OnEntity(entityType, entityID);
            Allowed(after + inherited, name, target) <==> Allowed(after, name, target)
  {
    var target := OnEntity(entityType, entityID);
    var abilities := AbilitiesFor(names, entityID, entityType);
    var left := Survivors(own, abilities);
    var forbidden := StillAllowed(left + inherited, abilities, target);
    RowsForConcat(after, inherited, name);
    FirstConcat(RowsFor(after, name), RowsFor(inherited, name), target);
    if First(RowsFor(after, name), target) == Undecided {
      NotStillAllowed(left, inherited, names, entityID, entityType, after, name);
    }
  }

  /** If nothing of the user's own decides afterwards, the roles did not grant it either. */
  lemma NotStillAllowed(left: seq<Permission>, inherited: seq<Permission>, names: seq<string>,
                        entityID: nat, entityType: string, after: seq<Permission>, name: string)
    requires name in names
    requires var abilities := AbilitiesFor(names, entityID, entityType);
             var target := OnEntity(entityType, entityID);
             var forbidden := StillAllowed(left + inherited, abilities, target);
             forall p :: p in after <==> p in left || p in RowsWith(forbidden, true)
    requires First(RowsFor(after, name), OnEntity(entityType, entityID)) == Undecided
    ensures !Allowed(inherited, name, OnEntity(entityType, entityID))
  {
    hide First, RowsFor, Decides, Grants;
    var target := OnEntity(entityType, entityID);
    var abilities := AbilitiesFor(names, entityID, entityType);
    var forbidden := StillAllowed(left + inherited, abilities, target);
    UndecidedIff(after, name, target);
    forall k | 0 <= k < |left| ensures !(Names(left[k], name) && Decides(left[k], target)) {
      assert left[k] in after;
    }
    UndecidedIff(left, name, target);
    RowsForConcat(left, inherited, name);
    FirstConcat(RowsFor(left, name), RowsFor(inherited, name), target);
    var a := AbilityFor(name, entityID, entityType);
    var i :| 0 <= i < |names| && names[i] == name;
    assert abilities[i] == a;
    ForbiddenRow(forbidden, a, after, target);
  }

  /** A forbidding row for the ability would have decided. */
  lemma ForbiddenRow(forbidden: seq<Ability>, a: Ability, after: seq<Permission>, target: Target)
    requires forall p :: p in RowsWith(forbidden, true) ==> p in after
    requires forall k :: 0 <= k < |after| ==> !(Names(after[k], a.name) && Decides(after[k], target))
    ensures a !in forbidden
  {
    forall j | 0 <= j < |forbidden| ensures forbidden[j] != a {
      var p := RowsWith(forbidden, true)[j];
      assert p in after;
    }
  }

  /** In particular nothing is allowed when no surviving row of the user grants it. */
  lemma RevokedUnlessGranted(own: seq<Permission>, inherited: seq<Permission>, names: seq<string>,
                             entityID: nat, entityType: string, after: seq<Permission>, name: string)
    requires name in names
    requires var abilities := AbilitiesFor(names, entityID, entityType);
             var target := OnEntity(entityType, entityID);
             var left := Survivors(own, abilities);
             var forbidden := StillAllowed(left + inherited, abilities, target);
             && (forall p :: p in after <==> p in left || p in RowsWith(forbidden, true))
             && (forall p :: p in left && Names(p, name) ==> !Grants(p, target))
    ensures !Allowed(after + inherited, name, OnEntity(entityType, entityID))
  {
    hide StillAllowed, First, RowsFor;
    var target := OnEntity(entityType, entityID);
    RevokedExactly(own, inherited, names, entityID, entityType, after, name);
    forall k | 0 <= k < |after| ensures !(Names(after[k], name) && Grants(after[k], target)) {
      assert after[k] in after;
    }
    NoGrant(after, name, target);
  }

  lemma {:induction false} NoGrant(rows: seq<Permission>, name: string, target: Target)
    requires forall k :: 0 <= k < |rows| ==> !(Names(rows[k], name) && Grants(rows[k], target))
    ensures !Allowed(rows, name, target)
  {
    if rows != [] {
      NoGrant(rows[1..], name, target);
      assert RowsFor(rows, name) == (if Names(rows[0], name) then [rows[0]] else []) + RowsFor(rows[1..], name);
      FirstConcat(if Names(rows[0], name) then [rows[0]] else [], RowsFor(rows[1..], name), target);
    }
  }

  /** With the forbidding rows stored last, the outcome is settled by the rows that the
      revocation left: they grant the ability before any of them forbids it, or it is gone. */
  lemma RevokedByOwnRows(left: seq<Permission>, forbidden: seq<Ability>, name: string, target: Target)
    ensures Allowed(left + RowsWith(forbidden, true), name, target) <==> Allowed(left, name, target)
  {
    hide First, RowsFor;
    var added := RowsWith(forbidden, true);
    RowsForConcat(left, added, name);
    FirstConcat(RowsFor(left, name), RowsFor(added, name), target);
    NoGrant(added, name, target);
  }

  // ---------------------------------------------------------------------------
  // Loops over rows
  // ---------------------------------------------------------------------------

  /** The rows of one role, narrowed to what it is restricted to. */
  method FilterRole(role: RestrictedRole, permissions: seq<Permission>) returns (kept: seq<Permission>)
    ensures kept == RoleRows(role, permissions)
  {
    if !Restricted(role) {
      RoleRowsWhole(role, permissions);
      return permissions;
    }
    kept := [];
    if role.toType.None? {
      RoleRowsNone(role, permissions);
      return;
    }
    for i := 0 to |permissions|
      invariant kept == RoleRows(role, permissions[..i])
    {
      var a := permissions[i].ability;
      assert permissions[..i + 1][..i] == permissions[..i];
      if a.Some? {
        if role.toID.None? {
          if a.value.entityType.Some? && a.value.entityType == role.toType { kept := kept + [permissions[i]]; }
        } else {
          if a.value.entityID.Some? && a.value.entityID == role.toID { kept := kept + [permissions[i]]; }
        }
      }
    }
    assert permissions[..|permissions|] == permissions;
  }

  method GroupByName(all: seq<Permission>) returns (m: ByName)
    ensures Groups(m, all)
  {
    m := map[];
    for i := 0 to |all|
      invariant Groups(m, all[..i])
    {
      var a := all[i].ability;
      assert all[..i + 1] == all[..i] + [all[i]];
      forall name ensures RowsFor(all[..i + 1], name) ==
                          RowsFor(all[..i], name) + (if Names(all[i], name) then [all[i]] else [])
      {
        RowsForSnoc(all[..i], all[i], name);
      }
      if a.Some? {
        var n := a.value.name;
        m := m[n := (if n in m then m[n] else []) + [all[i]]];
      }
    }
    assert all[..|all|] == all;
  }

  // ---------------------------------------------------------------------------
  // The service: repository, roles and cache
  // ---------------------------------------------------------------------------

  datatype Entry = Entry(permissions: ByName, expiresAt: int)

  function RolesOf(roles: map<nat, seq<RestrictedRole>>, user: nat): seq<RestrictedRole> {
    if user in roles then roles[user] else []
  }

  /** Every cached answer is the one the repository gives. */
  ghost predicate CoherentWith(cache: map<nat, Entry>, rows: Rows, roles: map<nat, seq<RestrictedRole>>) {
    forall user :: user in cache ==> Groups(cache[user].permissions, AllRows(rows, RolesOf(roles, user), user))
  }

  /** Dropping a user's entry keeps the cache coherent when that user's rows change. */
  lemma DropKeeps(cache: map<nat, Entry>, before: Rows, after: Rows, roles: map<nat, seq<RestrictedRole>>, user: nat)
    requires CoherentWith(cache, before, roles)
    requires forall o :: o != User(user) ==> RowsOf(before, o) == RowsOf(after, o)
    ensures CoherentWith(cache - {user}, after, roles)
  {
    hide Groups;
    forall other | other in cache - {user}
      ensures Groups(cache[other].permissions, AllRows(after, RolesOf(roles, other), other))
    {
      InheritedSame(before, after, RolesOf(roles, other));
    }
  }

  class Service {
    const ttl: nat
    var rows: Rows
    var roles: map<nat, seq<RestrictedRole>>
    var cache: map<nat, Entry>

    ghost function RowsForUser(user: nat): seq<Permission>
      reads this
    {
      AllRows(rows, RolesOf(roles, user), user)
    }

    ghost predicate Coherent()
      reads this
    {
      CoherentWith(cache, rows, roles)
    }

    constructor (ttl: nat, rows: Rows, roles: map<nat, seq<RestrictedRole>>)
      ensures Coherent() && this.ttl == ttl && this.rows == rows && this.roles == roles
    {
      this.ttl, this.rows, this.roles, cache := ttl, rows, roles, map[];
    }

    // The cache

    method Get(user: nat, now: int) returns (r: Option<ByName>)
      ensures r.Some? <==> ttl != 0 && user in cache && now <= cache[user].expiresAt
      ensures r.Some? ==> r.value == cache[user].permissions
    {
      if ttl == 0 { return None; }
      if user !in cache { return None; }
      if now > cache[user].expiresAt { return None; }
      return Some(cache[user].permissions);
    }

    method Set(user: nat, permissions: ByName, now: int)
      modifies `cache
      ensures cache == if ttl == 0 then old(cache) else old(cache)[user := Entry(permissions, now + ttl)]
    {
      if ttl == 0 { return; }
      cache := cache[user := Entry(permissions, now + ttl)];
    }

    method Delete(user: nat)
      modifies `cache
      ensures cache == old(cache) - {user}
    {
      cache := cache - {user};
    }

    method Clear()
      requires Coherent()
      modifies `cache
      ensures cache == map[] && Coherent()
    {
      cache := map[];
    }

    /** Removes exactly the expired entries, in whatever order they come. */
    method CleanupExpired(now: int)
      requires Coherent()
      modifies `cache
      ensures cache == map user | user in old(cache) && now <= old(cache)[user].expiresAt :: old(cache)[user]
      ensures Coherent()
    {
      hide Groups;
      var todo := cache.Keys;
      while todo != {}
        invariant todo <= old(cache).Keys
        invariant forall u :: u in cache <==> u in old(cache) && (u in todo || now <= old(cache)[u].expiresAt)
        invariant forall u :: u in cache ==> cache[u] == old(cache)[u]
        decreases |todo|
      {
        var u :| u in todo;
        todo := todo - {u};
        if now > cache[u].expiresAt { cache := cache - {u}; }
      }
    }

    // Permission rows

    method CollectRows(user: nat) returns (all: seq<Permission>)
      ensures all == RowsForUser(user)
    {
      hide RoleRows, RowsOf;
      all := RowsOf(rows, User(user));
      var held := RolesOf(roles, user);
      for i := 0 to |held|
        invariant all == RowsOf(rows, User(user)) + InheritedRows(rows, held[..i])
      {
        var kept := FilterRole(held[i], RowsOf(rows, Role(held[i].id)));
        assert held[..i + 1][..i] == held[..i];
        all := all + kept;
      }
      assert held[..|held|] == held;
    }

    /** From the cache if it holds a live entry, else from the repository: the same answer. */
    method GetAllPermissionsForUser(user: nat, now: int) returns (m: ByName)
      requires Coherent()
      modifies `cache
      ensures Coherent() && Groups(m, RowsForUser(user))
    {
      hide Groups, AllRows;
      var cached := Get(user, now);
      if cached.Some? { return cached.value; }
      var all := CollectRows(user);
      m := GroupByName(all);
      Set(user, m, now);
    }

    // Checks

    method Can(user: nat, names: seq<string>, now: int) returns (ok: bool)
      requires Coherent()
      modifies `cache
      ensures Coherent() && (ok <==> CanAll(RowsForUser(user), names, Everywhere))
    {
      hide Groups, AllRows, CanAll, CoherentWith;
      var byName := GetAllPermissionsForUser(user, now);
      ok := CheckAll(byName, RowsForUser(user), names, Everywhere);
    }

    method CanForEntity(user: nat, entityType: string, entityID: nat, names: seq<string>, now: int) returns (ok: bool)
      requires Coherent()
      modifies `cache
      ensures Coherent() && (ok <==> CanAll(RowsForUser(user), names, OnEntity(entityType, entityID)))
    {
      hide Groups, AllRows, CanAll, CoherentWith;
      var byName := GetAllPermissionsForUser(user, now);
      ok := CheckAll(byName, RowsForUser(user), names, OnEntity(entityType, entityID));
    }

    method CanOneOf(user: nat, names: seq<string>, now: int) returns (ok: bool)
      requires Coherent()
      modifies `cache
      ensures Coherent() && (ok <==> CanSome(RowsForUser(user), names))
    {
      hide Groups, AllRows, CanSome, CoherentWith;
      var byName := GetAllPermissionsForUser(user, now);
      ok := CheckSome(byName, RowsForUser(user), names);
    }

    // Changes

    method AllowUserAbilitiesForEntity(user: nat, entityID: nat, entityType: string, names: seq<string>)
      requires Coherent()
      modifies `rows, `cache
      ensures Coherent() && user !in cache
      ensures rows == old(rows)[User(user) := AfterAllow(RowsOf(old(rows), User(user)), names, entityID, entityType)]
    {
      hide CoherentWith, Survivors;
      var abilities := AbilitiesFor(names, entityID, entityType);
      var left := Survivors(RowsOf(rows, User(user)), abilities);
      ghost var before := rows;
      rows := rows[User(user) := left + RowsWith(abilities, false)];
      DropKeeps(cache, before, rows, roles, user);
      Delete(user);
    }

    method RevokeOrForbidUserAbilitiesForEntity(
      user: nat, entityID: nat, entityType: string, names: seq<string>, now: int)
      requires Coherent()
      modifies `rows, `cache
      ensures Coherent()
      ensures rows == old(rows)[User(user) := Revoked(old(rows), RolesOf(roles, user), user, names, entityID, entityType)]
    {
      hide CoherentWith, Survivors, AllRows, Allowed;
      var abilities := AbilitiesFor(names, entityID, entityType);
      var target := OnEntity(entityType, entityID);
      var left := Survivors(RowsOf(rows, User(user)), abilities);
      ghost var before := rows;
      rows := rows[User(user) := left];
      DropKeeps(cache, before, rows, roles, user);
      Delete(user);
      ghost var all := RowsForUser(user);
      LeftRows(before, rows, RolesOf(roles, user), user, left);
      var forbidden: seq<Ability> := [];
      for i := 0 to |abilities|
        invariant Coherent() && rows == before[User(user) := left] && RowsForUser(user) == all
        invariant forbidden == StillAllowed(all, abilities[..i], target)
      {
        var can := CanForEntity(user, entityType, entityID, [abilities[i].name], now);
        assert can <==> Allowed(all, [abilities[i].name][0], target);
        StillAllowedSnoc(all, abilities, i, target);
        if can { forbidden := forbidden + [abilities[i]]; }
      }
      assert abilities[..|abilities|] == abilities;
      if |forbidden| > 0 {
        ghost var revoked := rows;
        rows := rows[User(user) := left + RowsWith(forbidden, true)];
        DropKeeps(cache, revoked, rows, roles, user);
        Delete(user);
      } else {
        assert left + RowsWith(forbidden, true) == left;
      }
    }
  }

  /** Counts the abilities granted; a forbidding row met on the way ends the check. */
  method CheckAll(byName: ByName, ghost rows: seq<Permission>, names: seq<string>, target: Target) returns (ok: bool)
    requires Groups(byName, rows)
    ensures ok <==> CanAll(rows, names, target)
  {
    hide First, CanAll;
    var counter: nat := 0;
    assert CanAll(rows, names[..0], target) by { NothingAsked(rows, names[..0], target); }
    for i := 0 to |names|
      invariant counter <= i
      invariant counter == i <==> CanAll(rows, names[..i], target)
    {
      var verdict := FirstOf(if names[i] in byName then byName[names[i]] else [], target);
      assert verdict == Granted <==> Allowed(rows, names[i], target);
      CanMore(rows, names, i, target);
      if verdict == Denied { return false; }
      if verdict == Granted { counter := counter + 1; }
    }
    assert names[..|names|] == names;
    return counter == |names|;
  }

  method FirstOf(permissions: seq<Permission>, target: Target) returns (v: Verdict)
    ensures v == First(permissions, target)
  {
    for i := 0 to |permissions|
      invariant First(permissions, target) == First(permissions[i..], target)
    {
      if permissions[i].forbidden { return Denied; }
      if permissions[i].ability.Some? && Covers(permissions[i].ability.value, target) { return Granted; }
    }
    return Undecided;
  }

  method CheckSome(byName: ByName, ghost rows: seq<Permission>, names: seq<string>) returns (ok: bool)
    requires Groups(byName, rows)
    ensures ok <==> CanSome(rows, names)
  {
    hide RowsFor, AllowedSomewhere;
    for i := 0 to |names|
      invariant forall k :: 0 <= k < i ==> !AllowedSomewhere(rows, names[k])
    {
      var granted := AnyGrants(if names[i] in byName then byName[names[i]] else []);
      SomewhereIff(rows, names[i]);
      if granted { return true; }
    }
    return false;
  }

  method AnyGrants(permissions: seq<Permission>) returns (ok: bool)
    ensures ok <==> HasGrant(permissions)
  {
    for i := 0 to |permissions|
      invariant forall k :: 0 <= k < i ==> !Grants(permissions[k], Everywhere)
    {
      if !permissions[i].forbidden && permissions[i].ability.Some? &&
         permissions[i].ability.value.entityType.None? && permissions[i].ability.value.entityID.None?
      {
        return true;
      }
    }
    return false;
  }

  predicate HasGrant(rows: seq<Permission>) {
    exists k :: 0 <= k < |rows| && Grants(rows[k], Everywhere)
  }

  lemma NothingAsked(rows: seq<Permission>, names: seq<string>, target: Target)
    requires names == []
    ensures CanAll(rows, names, target)
  {
  }

  /** The user's own rows after a revoke-or-forbid. */
  function Revoked(rows: Rows, roles: seq<RestrictedRole>, user: nat, names: seq<string>,
                   entityID: nat, entityType: string): seq<Permission>
  {
    var abilities := AbilitiesFor(names, entityID, entityType);
    var left := Survivors(RowsOf(rows, User(user)), abilities);
    var forbidden := StillAllowed(left + InheritedRows(rows, roles), abilities, OnEntity(entityType, entityID));
    left + RowsWith(forbidden, true)
  }

  lemma CanMore(rows: seq<Permission>, names: seq<string>, i: nat, target: Target)
    requires i < |names|
    ensures CanAll(rows, names[..i + 1], target) <==> CanAll(rows, names[..i], target) && Allowed(rows, names[i], target)
    ensures !Allowed(rows, names[i], target) ==> !CanAll(rows, names, target)
  {
    hide Allowed;
    assert names[..i + 1] == names[..i] + [names[i]];
  }

  lemma {:induction false} SomewhereIff(rows: seq<Permission>, name: string)
    ensures AllowedSomewhere(rows, name) <==> HasGrant(RowsFor(rows, name))
  {
    hide HasGrant, AllowedSomewhere;
    if rows == [] {
      NothingGranted(name);
    } else {
      var rest, head := rows[1..], rows[0];
      var first := if Names(head, name) then [head] else [];
      SomewhereIff(rest, name);
      SomewhereCons(rows, name);
      assert RowsFor(rows, name) == first + RowsFor(rest, name);
      GrantCons(first, RowsFor(rest, name));
      GrantOne(first, head);
    }
  }

  lemma NothingGranted(name: string)
    ensures !AllowedSomewhere([], name) && !HasGrant(RowsFor([], name))
  {
  }

  lemma GrantOne(first: seq<Permission>, head: Permission)
    requires first == [] || first == [head]
    ensures HasGrant(first) <==> first == [head] && Grants(head, Everywhere)
  {
    if first == [head] { assert first[0] == head; }
  }

  lemma SomewhereCons(rows: seq<Permission>, name: string)
    requires rows != []
    ensures AllowedSomewhere(rows, name) <==>
            (Names(rows[0], name) && Grants(rows[0], Everywhere)) || AllowedSomewhere(rows[1..], name)
  {
    if AllowedSomewhere(rows[1..], name) {
      var k :| 0 <= k < |rows| - 1 && Names(rows[1..][k], name) && Grants(rows[1..][k], Everywhere);
      assert rows[k + 1] == rows[1..][k];
    }
    assert forall k :: 1 <= k < |rows| ==> rows[k] == rows[1..][k - 1];
  }

  lemma GrantCons(head: seq<Permission>, rest: seq<Permission>)
    requires |head| <= 1
    ensures HasGrant(head + rest) <==> HasGrant(head) || HasGrant(rest)
  {
    if HasGrant(head) {
      assert (head + rest)[0] == head[0];
    }
    if HasGrant(rest) {
      var k :| 0 <= k < |rest| && Grants(rest[k], Everywhere);
      assert (head + rest)[|head| + k] == rest[k];
    }
  }

  lemma LeftRows(before: Rows, after: Rows, roles: seq<RestrictedRole>, user: nat, left: seq<Permission>)
    requires after == before[User(user) := left]
    ensures AllRows(after, roles, user) == left + InheritedRows(before, roles)
  {
    InheritedSame(before, after, roles);
  }

  lemma StillAllowedSnoc(rows: seq<Permission>, abilities: seq<Ability>, i: nat, target: Target)
    requires i < |abilities|
    ensures StillAllowed(rows, abilities[..i + 1], target) ==
            StillAllowed(rows, abilities[..i], target) +
            (if Allowed(rows, abilities[i].name, target) then [abilities[i]] else [])
  {
    assert abilities[..i + 1][..i] == abilities[..i];
  }

  /** What the operation leaves: each named ability is allowed on the entity exactly when the
      rows that the revocation left of the user's own grant it before any forbids it. */
  lemma RevokeOrForbidExactly(rows: Rows, roles: seq<RestrictedRole>, user: nat, names: seq<string>,
                              entityID: nat, entityType: string, name: string)
    requires name in names
    ensures var after := rows[User(user) := Revoked(rows, roles, user, names, entityID, entityType)];
            var left := Survivors(RowsOf(rows, User(user)), AbilitiesFor(names, entityID, entityType));
            var target := OnEntity(entityType, entityID);
            Allowed(AllRows(after, roles, user), name, target) <==> Allowed(left, name, target)
  {
    hide Survivors, StillAllowed, Allowed, AllRows;
    var own := RowsOf(rows, User(user));
    var abilities := AbilitiesFor(names, entityID, entityType);
    var target := OnEntity(entityType, entityID);
    var left := Survivors(own, abilities);
    var inherited := InheritedRows(rows, roles);
    var forbidden := StillAllowed(left + inherited, abilities, target);
    var mine := Revoked(rows, roles, user, names, entityID, entityType);
    LeftRows(rows, rows[User(user) := mine], roles, user, mine);
    RevokedExactly(own, inherited, names, entityID, entityType, mine, name);
    RevokedByOwnRows(left, forbidden, name, target);
  }

  /** A grant everywhere among the user's own rows survives a revocation on one entity, and so
      does the ability. */
  lemma WiderGrantSurvives(user: nat, name: string, entityID: nat, entityType: string)
    ensures var own := [Permission(false, Some(Ability(name, None, None, None)))];
            var rows := map[User(user) := own];
            var after := rows[User(user) := Revoked(rows, [], user, [name], entityID, entityType)];
            Allowed(AllRows(after, [], user), name, OnEntity(entityType, entityID))
  {
    hide StillAllowed;
    var p := Permission(false, Some(Ability(name, None, None, None)));
    var own, abilities := [p], AbilitiesFor([name], entityID, entityType);
    var rows := map[User(user) := own];
    assert abilities == [AbilityFor(name, entityID, entityType)];
    assert own[..0] == [] && Survivors([], abilities) == [];
    assert Survivors(own, abilities) == own;
    RevokeOrForbidExactly(rows, [], user, [name], entityID, entityType, name);
    assert RowsFor(own[1..], name) == [] && RowsFor(own, name) == own;
  }

  // ---------------------------------------------------------------------------
  // Which entity a grant is for
  // ---------------------------------------------------------------------------

  /** One grant alone: without type and ID it holds everywhere; for a type, on every entity of
      that type and nowhere else; for an entity, on that entity alone; for an ID without a type,
      nowhere. */
  lemma GrantHoldsExactly(a: Ability, target: Target)
    ensures Allowed([Permission(false, Some(a))], a.name, target) <==>
            match a.entityType
            case None => a.entityID == None
            case Some(t) =>
              match a.entityID
              case None => target.OnEntity? && target.entityType == t
              case Some(i) => target == OnEntity(t, i)
  {
    var p := Permission(false, Some(a));
    assert [p][1..] == [] && RowsFor([p], a.name) == [p];
    assert First([p], target) == Granted <==> Grants(p, target);
    assert target.OnEntity? ==> target == OnEntity(target.entityType, target.entityID);
  }

  /** The any-of check asks for a grant of the name that is bound to nothing; forbidding rows do
      not matter to it. */
  lemma CanSomeExactly(rows: seq<Permission>, names: seq<string>)
    ensures CanSome(rows, names) <==>
            exists p, scope, name :: p in rows && name in names &&
              p == Permission(false, Some(Ability(name, None, None, scope)))
  {
    if CanSome(rows, names) {
      var i :| 0 <= i < |names| && AllowedSomewhere(rows, names[i]);
      var k :| 0 <= k < |rows| && Names(rows[k], names[i]) && Grants(rows[k], Everywhere);
      assert rows[k] in rows && names[i] in names;
      assert rows[k] == Permission(false, Some(Ability(names[i], None, None, rows[k].ability.value.scope)));
    }
    forall p, scope, name |
      p in rows && name in names && p == Permission(false, Some(Ability(name, None, None, scope)))
      ensures CanSome(rows, names)
    {
      var i :| 0 <= i < |names| && names[i] == name;
      var k :| 0 <= k < |rows| && rows[k] == p;
      assert Names(rows[k], names[i]) && Grants(rows[k], Everywhere);
      assert AllowedSomewhere(rows, names[i]);
    }
  }

  /** Allowed means: some row with the name grants it on the target, and none before it grants
      or forbids. */
  lemma {:induction false} AllowedExactly(rows: seq<Permission>, name: string, target: Target)
    ensures Allowed(rows, name, target) <==>
            exists k :: 0 <= k < |rows| && FirstToGrant(rows, name, target, k)
  {
    hide FirstToGrant;
    if rows != [] {
      var rest := rows[1..];
      AllowedExactly(rest, name, target);
      assert RowsFor(rows, name) == (if Names(rows[0], name) then [rows[0]] else []) + RowsFor(rest, name);
      FirstConcat(if Names(rows[0], name) then [rows[0]] else [], RowsFor(rest, name), target);
      GrantersShift(rows, name, target);
    }
  }

  predicate FirstToGrant(rows: seq<Permission>, name: string, target: Target, k: nat)
    requires k < |rows|
  {
    && Names(rows[k], name) && Grants(rows[k], target)
    && forall j :: 0 <= j < k ==> !(Names(rows[j], name) && Decides(rows[j], target))
  }

  lemma GrantersShift(rows: seq<Permission>, name: string, target: Target)
    requires rows != []
    ensures (exists k :: 0 <= k < |rows| && FirstToGrant(rows, name, target, k)) <==>
            if Names(rows[0], name) && Decides(rows[0], target) then Grants(rows[0], target)
            else exists k :: 0 <= k < |rows| - 1 && FirstToGrant(rows[1..], name, target, k)
  {
    var rest := rows[1..];
    if Names(rows[0], name) && Grants(rows[0], target) { assert FirstToGrant(rows, name, target, 0); }
    forall k | 0 <= k < |rest| && FirstToGrant(rest, name, target, k) && !(Names(rows[0], name) && Decides(rows[0], target))
      ensures FirstToGrant(rows, name, target, k + 1)
    {
      assert rows[k + 1] == rest[k] && forall j :: 1 <= j < k + 1 ==> rows[j] == rest[j - 1];
    }
    forall k | 1 <= k < |rows| && FirstToGrant(rows, name, target, k) ensures FirstToGrant(rest, name, target, k - 1) {
      assert rest[k - 1] == rows[k] && forall j :: 0 <= j < k - 1 ==> rest[j] == rows[j + 1];
    }
  }

  // ---------------------------------------------------------------------------
  // What allowing changes
  // ---------------------------------------------------------------------------

  /** The user's own rows after an allow. */
  function AfterAllow(own: seq<Permission>, names: seq<string>, entityID: nat, entityType: string): seq<Permission> {
    var abilities := AbilitiesFor(names, entityID, entityType);
    Survivors(own, abilities) + RowsWith(abilities, false)
  }

  /** The new rows decide on their own entity alone, and grant exactly the named abilities. */
  lemma {:induction false} NewGrants(names: seq<string>, entityID: nat, entityType: string, name: string, target: Target)
    ensures First(RowsFor(RowsWith(AbilitiesFor(names, entityID, entityType), false), name), target) ==
            if name in names && target == OnEntity(entityType, entityID) then Granted else Undecided
  {
    var rows := RowsWith(AbilitiesFor(names, entityID, entityType), false);
    if names != [] {
      var rest := RowsWith(AbilitiesFor(names[1..], entityID, entityType), false);
      assert rows == [rows[0]] + rest;
      NewGrants(names[1..], entityID, entityType, name, target);
      RowsForConcat([rows[0]], rest, name);
      assert RowsFor([rows[0]], name) == if names[0] == name then [rows[0]] else [];
      FirstConcat(RowsFor([rows[0]], name), RowsFor(rest, name), target);
    }
  }

  /** After an allow, on the entity: each named ability is allowed exactly unless the surviving
      own rows forbid it first. On every other target, and for every other ability, the answer
      is what it would be without the new rows. */
  lemma AllowExactly(own: seq<Permission>, inherited: seq<Permission>, names: seq<string>,
                     entityID: nat, entityType: string, name: string, target: Target)
    ensures var left := Survivors(own, AbilitiesFor(names, entityID, entityType));
            Allowed(AfterAllow(own, names, entityID, entityType) + inherited, name, target) <==>
            if name in names && target == OnEntity(entityType, entityID)
            then First(RowsFor(left, name), target) != Denied
            else Allowed(left + inherited, name, target)
  {
    hide First, RowsFor, Survivors, RowsWith;
    var abilities := AbilitiesFor(names, entityID, entityType);
    var left, added := Survivors(own, abilities), RowsWith(abilities, false);
    NewGrants(names, entityID, entityType, name, target);
    RowsForConcat(left + added, inherited, name);
    RowsForConcat(left, added, name);
    RowsForConcat(left, inherited, name);
    FirstConcat(RowsFor(left, name) + RowsFor(added, name), RowsFor(inherited, name), target);
    FirstConcat(RowsFor(left, name), RowsFor(added, name), target);
    FirstConcat(RowsFor(left, name), RowsFor(inherited, name), target);
  }

  /** On the repository: an ability just allowed on an entity is allowed there, unless a
      surviving row of the user's own forbids it. */
  lemma AllowTakesEffect(rows: Rows, roles: seq<RestrictedRole>, user: nat, names: seq<string>,
                         entityID: nat, entityType: string, name: string)
    requires name in names
    requires var left := Survivors(RowsOf(rows, User(user)), AbilitiesFor(names, entityID, entityType));
             forall p :: p in left && Names(p, name) ==> !p.forbidden
    ensures var after := rows[User(user) := AfterAllow(RowsOf(rows, User(user)), names, entityID, entityType)];
            Allowed(AllRows(after, roles, user), name, OnEntity(entityType, entityID))
  {
    hide First, RowsFor, Survivors, AfterAllow, Allowed;
    var own, target := RowsOf(rows, User(user)), OnEntity(entityType, entityID);
    var mine := AfterAllow(own, names, entityID, entityType);
    LeftRows(rows, rows[User(user) := mine], roles, user, mine);
    AllowExactly(own, InheritedRows(rows, roles), names, entityID, entityType, name, target);
    NotForbidden(Survivors(own, AbilitiesFor(names, entityID, entityType)), name, target);
  }

  lemma {:induction false} NotForbidden(rows: seq<Permission>, name: string, target: Target)
    requires forall p :: p in rows && Names(p, name) ==> !p.forbidden
    ensures First(RowsFor(rows, name), target) != Denied
  {
    if rows != [] {
      NotForbidden(rows[1..], name, target);
      assert rows[0] in rows;
      assert RowsFor(rows, name) == (if Names(rows[0], name) then [rows[0]] else []) + RowsFor(rows[1..], name);
      FirstConcat(if Names(rows[0], name) then [rows[0]] else [], RowsFor(rows[1..], name), target);
    }
  }

  // ---------------------------------------------------------------------------
  // What restricted roles give
  // ---------------------------------------------------------------------------

  /** The rows a role gives: all if it is not restricted; of its type if restricted to one;
      with its ID, whatever their type, if restricted to a type and an ID; none if restricted
      to an ID alone. */
  lemma {:induction false} RoleRowsExactly(role: RestrictedRole, rows: seq<Permission>, p: Permission)
    ensures p in RoleRows(role, rows) <==>
            p in rows &&
            match role.toType
            case None => role.toID == None
            case Some(t) =>
              p.ability.Some? &&
              match role.toID
              case None => p.ability.value.entityType == Some(t)
              case Some(i) => p.ability.value.entityID == Some(i)
  {
    if rows != [] {
      var init, last := rows[..|rows| - 1], rows[|rows| - 1];
      RoleRowsExactly(role, init, p);
      assert rows == init + [last];
    }
  }

  /** A role restricted to a type grants nothing outside it, one restricted to an ID too
      nothing on another ID; neither grants anything everywhere. */
  lemma RestrictedRoleGrants(role: RestrictedRole, rows: seq<Permission>, name: string, target: Target)
    requires Restricted(role) && Allowed(RoleRows(role, rows), name, target)
    ensures role.toType.Some? && target.OnEntity?
    ensures role.toID.None? ==> target.entityType == role.toType.value
    ensures role.toID.Some? ==> target.entityID == role.toID.value
  {
    hide RoleRows, First, RowsFor;
    var k := GrantedNeedsGrant(RoleRows(role, rows), name, target);
    var p := RoleRows(role, rows)[k];
    RoleRowsExactly(role, rows, p);
  }
}
