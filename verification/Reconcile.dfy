/**
 * Projecting a binary's permission catalogue and built-in roles into the tables, once per boot
 * (internal/authz/reconcile.go). Nothing is deleted: a key no longer shipped is stamped.
 */
module Reconcile {
  import opened Wrappers
  import opened Ordering

  datatype Permission = Permission(
    key: string, category: string, caption: string, description: string, isDangerous: bool, requiresStepUp: bool, sortOrder: int)

  datatype Row = Row(
    category: string, caption: string, description: string, isDangerous: int, requiresStepUp: int, sortOrder: int, orphanedAt: Option<int>)

  datatype BuiltinRole = BuiltinRole(id: string, key: string, nameNorm: string, permissions: seq<string>)

  datatype RoleRow = RoleRow(key: Option<string>, nameNorm: string, deleted: bool, createdAt: int)

  datatype Grant = Grant(role: string, permission: string)

  datatype Tables = Tables(permissions: map<string, Row>, roles: map<string, RoleRow>, grants: set<Grant>)

  datatype Binary = Binary(catalogue: seq<Permission>, roles: seq<BuiltinRole>, required: seq<string>)

  datatype Report = Report(
    live: int, inserted: int, updated: int, orphaned: seq<string>, restored: seq<string>,
    rolesSeeded: seq<string>, grantsSeeded: int)

  datatype BootError = StoreFailure | MissingPermission(keys: seq<string>)

  /** The statements of one reconciliation that the store can fail. */
  datatype Statement = ListPermissions | Upsert(key: string) | ListRoles | InsertRole(id: string)
                     | InsertGrant(grant: Grant) | Orphan(key: string) | Get(key: string) | EndTransaction

  // ---- rows ----

  function BoolToInt(b: bool): int { if b then 1 else 0 }

  /** What the upsert writes: the shipped fields, and no stamp. */
  function Shipped(p: Permission): Row {
    Row(p.category, p.caption, p.description, BoolToInt(p.isDangerous), BoolToInt(p.requiresStepUp), p.sortOrder, None)
  }

  /** A permission as its row holds it, column by column: booleans as 0 and 1, and no stamp. */
  ghost predicate StoredAs(row: Row, p: Permission) {
    && row.category == p.category && row.caption == p.caption && row.description == p.description
    && row.isDangerous == (if p.isDangerous then 1 else 0)
    && row.requiresStepUp == (if p.requiresStepUp then 1 else 0)
    && row.sortOrder == p.sortOrder && row.orphanedAt == None
  }

  predicate SameRow(row: Row, p: Permission) {
    && row.category == p.category && row.caption == p.caption && row.description == p.description
    && row.isDangerous == BoolToInt(p.isDangerous) && row.requiresStepUp == BoolToInt(p.requiresStepUp)
    && row.sortOrder == p.sortOrder
  }

  function KeyOf(p: Permission): string { p.key }

  function KeysOf(ps: seq<Permission>): (r: seq<string>)
    ensures |r| == |ps| && forall i :: 0 <= i < |ps| ==> r[i] == ps[i].key
  {
    seq(|ps|, i requires 0 <= i < |ps| => ps[i].key)
  }

  predicate Ships(bin: Binary, key: string) { key in KeysOf(bin.catalogue) }

  // ---- the catalogue ----

  predicate IsNew(existing: map<string, Row>, p: Permission) { p.key !in existing }

  predicate IsRestored(existing: map<string, Row>, p: Permission) { p.key in existing && existing[p.key].orphanedAt.Some? }

  predicate IsUpdated(existing: map<string, Row>, p: Permission) {
    p.key in existing && existing[p.key].orphanedAt.None? && !SameRow(existing[p.key], p)
  }

  predicate Untouched(existing: map<string, Row>, p: Permission) {
    !IsNew(existing, p) && !IsRestored(existing, p) && !IsUpdated(existing, p)
  }

  function Upserted(rows: map<string, Row>, ps: seq<Permission>): map<string, Row> {
    if ps == [] then rows else Upserted(rows, ps[..|ps| - 1])[ps[|ps| - 1].key := Shipped(ps[|ps| - 1])]
  }

  predicate UpsertsFail(existing: map<string, Row>, ps: seq<Permission>, fails: set<Statement>) {
    exists i :: 0 <= i < |ps| && !Untouched(existing, ps[i]) && Upsert(ps[i].key) in fails
  }

  // ---- roles ----

  ghost predicate KeyPresent(roles: map<string, RoleRow>, key: string) {
    exists id :: id in roles && roles[id].key == Some(key)
  }

  /** ux_role_key, ux_role_name and the primary key. */
  predicate RoleFits(roles: map<string, RoleRow>, r: BuiltinRole) {
    && r.id !in roles
    && forall id :: id in roles ==> roles[id].key != Some(r.key) && (roles[id].deleted || roles[id].nameNorm != r.nameNorm)
  }

  function Grants(r: BuiltinRole): seq<Grant> {
    seq(|r.permissions|, i requires 0 <= i < |r.permissions| => Grant(r.id, r.permissions[i]))
  }

  /** The grants one by one, each needing a permission row and not already being there. */
  function Granted(t: Tables, gs: seq<Grant>, fails: set<Statement>): Option<Tables> {
    if gs == [] then Some(t)
    else
      var n := |gs| - 1;
      var before := Granted(t, gs[..n], fails);
      if before.None? || InsertGrant(gs[n]) in fails || gs[n] in before.value.grants
         || gs[n].permission !in before.value.permissions || gs[n].role !in before.value.roles then None
      else Some(before.value.(grants := before.value.grants + {gs[n]}))
  }

  function SeedOne(t: Tables, r: BuiltinRole, now: int, fails: set<Statement>): Option<Tables> {
    if InsertRole(r.id) in fails || !RoleFits(t.roles, r) then None
    else Granted(t.(roles := t.roles[r.id := RoleRow(Some(r.key), r.nameNorm, false, now)]), Grants(r), fails)
  }

  /** Each built-in role whose key no row had at the start. */
  function Seeded(t: Tables, present: set<string>, rs: seq<BuiltinRole>, now: int, fails: set<Statement>): Option<Tables> {
    if rs == [] then Some(t)
    else
      var n := |rs| - 1;
      var before := Seeded(t, present, rs[..n], now, fails);
      if before.None? then None
      else if rs[n].key in present then before
      else SeedOne(before.value, rs[n], now, fails)
  }

  function PresentKeys(roles: map<string, RoleRow>): set<string> {
    set id | id in roles && roles[id].key.Some? :: roles[id].key.value
  }

  function SeededKeys(present: set<string>, rs: seq<BuiltinRole>): seq<string> {
    if rs == [] then []
    else SeededKeys(present, rs[..|rs| - 1]) + if rs[|rs| - 1].key in present then [] else [rs[|rs| - 1].key]
  }

  function SeededGrants(present: set<string>, rs: seq<BuiltinRole>): int {
    if rs == [] then 0
    else SeededGrants(present, rs[..|rs| - 1]) + if rs[|rs| - 1].key in present then 0 else |rs[|rs| - 1].permissions|
  }

  // ---- retired keys ----

  function Retired(existing: map<string, Row>, bin: Binary): set<string> {
    set k | k in existing && !Ships(bin, k)
  }

  /** The stamp is the first one: a row already stamped keeps it. */
  function Stamped(row: Row, now: int): Row { if row.orphanedAt.Some? then row else row.(orphanedAt := Some(now)) }

  function Orphaned(rows: map<string, Row>, keys: set<string>, now: int): map<string, Row> {
    map k | k in rows :: if k in keys then Stamped(rows[k], now) else rows[k]
  }

  predicate OrphansFail(existing: map<string, Row>, keys: set<string>, fails: set<Statement>) {
    exists k :: k in keys && k in existing && existing[k].orphanedAt.None? && Orphan(k) in fails
  }

  function Missing(rows: map<string, Row>, required: seq<string>): seq<string> {
    Filter((k: string) => k !in rows || rows[k].orphanedAt.Some?, required)
  }

  predicate GetsFail(required: seq<string>, fails: set<Statement>) { exists i :: 0 <= i < |required| && Get(required[i]) in fails }

  // ---- one boot ----

  /** The sorted listing of a set, in the order `slices.Sorted` gives. */
  ghost predicate Lists(r: seq<string>, s: set<string>) {
    Strict(StrLe, r) && forall k :: k in r <==> k in s
  }

  ghost function ReportOf(t: Tables, bin: Binary, orphaned: seq<string>): Report {
    var present := PresentKeys(t.roles);
    Report(|bin.catalogue|,
           |Filter((p: Permission) => IsNew(t.permissions, p), bin.catalogue)|,
           |Filter((p: Permission) => IsUpdated(t.permissions, p), bin.catalogue)|,
           orphaned,
           KeysOf(Filter((p: Permission) => IsRestored(t.permissions, p), bin.catalogue)),
           SeededKeys(present, bin.roles), SeededGrants(present, bin.roles))
  }

  /** Why a boot stops, if it does, and the tables it would commit. */
  ghost function Projected(t: Tables, bin: Binary, now: int, fails: set<Statement>): Result<Tables, BootError> {
    if ListPermissions in fails || UpsertsFail(t.permissions, bin.catalogue, fails) || ListRoles in fails then Err(StoreFailure)
    else
      var upserted := t.(permissions := Upserted(t.permissions, bin.catalogue));
      match Seeded(upserted, PresentKeys(t.roles), bin.roles, now, fails)
      case None => Err(StoreFailure)
      case Some(seeded) =>
        var retired := Retired(t.permissions, bin);
        if OrphansFail(t.permissions, retired, fails) || GetsFail(bin.required, fails) then Err(StoreFailure)
        else
          var final := seeded.(permissions := Orphaned(seeded.permissions, retired, now));
          if Missing(final.permissions, bin.required) != [] then Err(MissingPermission(Missing(final.permissions, bin.required)))
          else if EndTransaction in fails then Err(StoreFailure)
          else Ok(final)
  }

  ghost function Boot(t: Tables, bin: Binary, now: int, fails: set<Statement>): Tables {
    var r := Projected(t, bin, now, fails);
    if r.Ok? then r.value else t
  }

  /** The catalogue's own test: no key twice. */
  ghost predicate Catalogued(bin: Binary) { DistinctBy(KeyOf, bin.catalogue) }

  // ---- the code ----

  method SortedStrings(s: set<string>) returns (r: seq<string>)
    ensures Lists(r, s)
  {
    var todo := s;
    var keys: seq<string> := [];
    while todo != {}
      invariant todo <= s
      invariant forall k :: k in keys <==> k in s - todo
      invariant DistinctBy((k: string) => k, keys)
      decreases todo
    {
      var k :| k in todo;
      assert forall i :: 0 <= i < |keys| ==> keys[i] in s - todo;
      keys := keys + [k];
      todo := todo - {k};
    }
    r := Sort(StrLe, keys);
    SortedLists(keys, s);
  }

  lemma SortedLists(keys: seq<string>, s: set<string>)
    requires (forall k :: k in keys <==> k in s) && DistinctBy((k: string) => k, keys)
    ensures Lists(Sort(StrLe, keys), s)
  {
    var r := Sort(StrLe, keys);
    SortMembers(StrLe, keys);
    SortKeeps(StrLe, keys);
    forall a, b ensures StrLe(a, b) || StrLe(b, a) { StrLeTotal(a, b); }
    forall a, b, c ensures StrLe(a, b) && StrLe(b, c) ==> StrLe(a, c) { if StrLe(a, b) && StrLe(b, c) { StrLeTransitive(a, b, c); } }
    SortSorts(StrLe, keys);
    DistinctPermutes((k: string) => k, r, keys);
    forall i, j | 0 <= i < j < |r| ensures StrLe(r[i], r[j]) && !StrLe(r[j], r[i]) {
      if StrLe(r[j], r[i]) { StrLeAntisymmetric(r[i], r[j]); }
    }
  }

  class AuthStore {
    var permissions: map<string, Row>
    var roles: map<string, RoleRow>
    var grants: set<Grant>

    constructor (t: Tables)
      ensures State() == t
    {
      permissions, roles, grants := t.permissions, t.roles, t.grants;
    }

    function State(): Tables
      reads this
    {
      Tables(permissions, roles, grants)
    }

    /** `upsertCatalogue`: only what is absent, stale or orphaned is written. */
    method UpsertCatalogue(existing: map<string, Row>, ps: seq<Permission>, fails: set<Statement>)
      returns (ok: bool, inserted: int, updated: int, restored: seq<string>)
      requires permissions == existing && DistinctBy(KeyOf, ps)
      modifies this`permissions
      ensures ok <==> !UpsertsFail(existing, ps, fails)
      ensures ok ==>
        && permissions == Upserted(existing, ps)
        && (forall p :: p in ps ==> p.key in permissions && StoredAs(permissions[p.key], p))
        && (forall k :: k in existing && k !in KeysOf(ps) ==> k in permissions && permissions[k] == existing[k])
        && inserted == |Filter((p: Permission) => IsNew(existing, p), ps)|
        && updated == |Filter((p: Permission) => IsUpdated(existing, p), ps)|
        && restored == KeysOf(Filter((p: Permission) => IsRestored(existing, p), ps))
    {
      hide SameRow, Shipped, Upserted, Filter, KeysOf;
      inserted, updated, restored := 0, 0, [];
      NothingListed(existing);
      for i := 0 to |ps|
        invariant permissions == Upserted(existing, ps[..i])
        invariant forall j :: 0 <= j < i ==> Untouched(existing, ps[j]) || Upsert(ps[j].key) !in fails
        invariant inserted == |Filter((p: Permission) => IsNew(existing, p), ps[..i])|
        invariant updated == |Filter((p: Permission) => IsUpdated(existing, p), ps[..i])|
        invariant restored == KeysOf(Filter((p: Permission) => IsRestored(existing, p), ps[..i]))
      {
        var p := ps[i];
        ListedNext(existing, ps, i);
        if IsNew(existing, p) {
          inserted := inserted + 1;
        } else if existing[p.key].orphanedAt.Some? {
          restored := restored + [p.key];
        } else if SameRow(existing[p.key], p) {
          UntouchedIsShipped(existing, ps, i);
          continue;
        } else {
          updated := updated + 1;
        }
        if Upsert(p.key) in fails { return false, 0, 0, []; }
        permissions := permissions[p.key := Shipped(p)];
      }
      assert ps[..|ps|] == ps;
      UpsertedStores(existing, ps);
      ok := true;
    }

    /** The grants of a role just inserted. */
    method InsertGrants(gs: seq<Grant>, fails: set<Statement>) returns (ok: bool)
      modifies this`grants
      ensures ok <==> Granted(old(State()), gs, fails).Some?
      ensures ok ==> State() == Granted(old(State()), gs, fails).value
    {
      hide Granted;
      ghost var was := State();
      NoneGranted(was, fails);
      for i := 0 to |gs|
        invariant Granted(was, gs[..i], fails) == Some(State())
      {
        GrantedNext(was, gs, i, fails);
        if InsertGrant(gs[i]) in fails || gs[i] in grants || gs[i].permission !in permissions || gs[i].role !in roles {
          GrantFails(was, gs, i + 1, fails);
          return false;
        }
        grants := grants + {gs[i]};
      }
      assert gs[..|gs|] == gs;
      ok := true;
    }

    /** `seedBuiltinRoles`: a role is created once and then belongs to the guild. */
    method SeedBuiltinRoles(rs: seq<BuiltinRole>, now: int, fails: set<Statement>)
      returns (ok: bool, seeded: seq<string>, granted: int)
      modifies this`roles, this`grants
      ensures var present := PresentKeys(old(roles));
              && (ok <==> ListRoles !in fails && Seeded(old(State()), present, rs, now, fails).Some?)
              && (ok ==> State() == Seeded(old(State()), present, rs, now, fails).value
                         && seeded == SeededKeys(present, rs) && granted == SeededGrants(present, rs))
    {
      hide RoleFits, PresentKeys, Seeded, SeededKeys, SeededGrants, Granted;
      if ListRoles in fails { return false, [], 0; }
      ghost var was := State();
      var present := PresentKeys(roles);
      seeded, granted := [], 0;
      NoRoleSeeded(was, present, now, fails);
      for i := 0 to |rs|
        invariant Seeded(was, present, rs[..i], now, fails) == Some(State())
        invariant seeded == SeededKeys(present, rs[..i]) && granted == SeededGrants(present, rs[..i])
      {
        var r := rs[i];
        SeededNext(was, present, rs, i, now, fails);
        if r.key in present { continue; }
        if InsertRole(r.id) in fails || !RoleFits(roles, r) {
          SeedFails(was, present, rs, i + 1, now, fails);
          return false, [], 0;
        }
        roles := roles[r.id := RoleRow(Some(r.key), r.nameNorm, false, now)];
        var done := InsertGrants(Grants(r), fails);
        if !done {
          SeedFails(was, present, rs, i + 1, now, fails);
          return false, [], 0;
        }
        seeded, granted := seeded + [r.key], granted + |r.permissions|;
      }
      assert rs[..|rs|] == rs;
      ok := true;
    }

    /** `orphanRetired`: stamp what has a row and is no longer shipped. */
    method OrphanRetired(existing: map<string, Row>, bin: Binary, now: int, fails: set<Statement>)
      returns (ok: bool, orphaned: seq<string>)
      requires forall k :: k in existing && !Ships(bin, k) ==> k in permissions && permissions[k] == existing[k]
      modifies this`permissions
      ensures ok <==> !OrphansFail(existing, Retired(existing, bin), fails)
      ensures ok ==> permissions == Orphaned(old(permissions), Retired(existing, bin), now)
      ensures ok ==> Lists(orphaned, Retired(existing, bin))
    {
      hide Lists, Ships;
      ghost var was := permissions;
      var retired := Retired(existing, bin);
      var keys := SortedStrings(retired);
      ListsMembers(keys, retired);
      OrphanedNone(was, now);
      for i := 0 to |keys|
        invariant permissions == Orphaned(was, Listed(keys[..i]), now)
        invariant forall j :: 0 <= j < i ==> existing[keys[j]].orphanedAt.Some? || Orphan(keys[j]) !in fails
      {
        var k := keys[i];
        OrphanNext(was, keys, i, now);
        if existing[k].orphanedAt.Some? { continue; }
        if Orphan(k) in fails { return false, []; }
        permissions := permissions[k := permissions[k].(orphanedAt := Some(now))];
      }
      assert keys[..|keys|] == keys && Listed(keys) == retired;
      return true, keys;
    }

    /** `requireKeys`: every required key must resolve to a live row; all that do not are named. */
    method RequireKeys(required: seq<string>, fails: set<Statement>) returns (r: Result<seq<string>, BootError>)
      ensures r == if GetsFail(required, fails) then Err(StoreFailure) else Ok(Missing(permissions, required))
    {
      var missing: seq<string> := [];
      for i := 0 to |required|
        invariant missing == Missing(permissions, required[..i])
        invariant forall j :: 0 <= j < i ==> Get(required[j]) !in fails
      {
        var k := required[i];
        assert required[..i + 1][..i] == required[..i];
        if Get(k) in fails { return Err(StoreFailure); }
        if k !in permissions || permissions[k].orphanedAt.Some? { missing := missing + [k]; }
      }
      assert required[..|required|] == required;
      return Ok(missing);
    }

    /** What runs inside the transaction. */
    method InTransaction(bin: Binary, now: int, fails: set<Statement>) returns (r: Result<Report, BootError>)
      requires Catalogued(bin)
      modifies this
      ensures var p := Projected(old(State()), bin, now, fails);
              && (EndTransaction !in fails ==> (r.Ok? <==> p.Ok?) && (r.Err? ==> p == Err(r.error)))
              && (p.Ok? ==> r.Ok? && State() == p.value && Lists(r.value.orphaned, Retired(old(permissions), bin))
                            && r.value == ReportOf(old(State()), bin, r.value.orphaned))
              && (r.Ok? && EndTransaction in fails ==> p == Err(StoreFailure))
              && (r.Err? && EndTransaction in fails ==> p.Err?)
    {
      hide Upserted, Seeded, Retired, Orphaned, Missing, UpsertsFail, OrphansFail, GetsFail, Lists, PresentKeys, SeededKeys, SeededGrants, Catalogued;
      if ListPermissions in fails { return Err(StoreFailure); }
      var existing := permissions;
      CataloguedKeys(bin);
      var ok, inserted, updated, restored := UpsertCatalogue(existing, bin.catalogue, fails);
      if !ok { return Err(StoreFailure); }
      var seeded, granted;
      ok, seeded, granted := SeedBuiltinRoles(bin.roles, now, fails);
      if !ok { return Err(StoreFailure); }
      RetiredUntouched(existing, bin);
      SeededKeepsPermissions(Tables(Upserted(existing, bin.catalogue), old(roles), old(grants)), PresentKeys(old(roles)), bin.roles, now, fails);
      var orphaned;
      ok, orphaned := OrphanRetired(existing, bin, now, fails);
      if !ok { return Err(StoreFailure); }
      var missing := RequireKeys(bin.required, fails);
      if missing.Err? { return Err(StoreFailure); }
      if |missing.value| > 0 { return Err(MissingPermission(missing.value)); }
      return Ok(Report(|bin.catalogue|, inserted, updated, orphaned, restored, seeded, granted));
    }

    /** `Reconcile`: one transaction, rolled back whole on any failure. */
    method Reconcile(bin: Binary, now: int, fails: set<Statement>) returns (r: Result<Report, BootError>)
      requires Catalogued(bin)
      modifies this
      ensures State() == Boot(old(State()), bin, now, fails)
      ensures r.Ok? <==> Projected(old(State()), bin, now, fails).Ok?
      ensures r.Ok? ==> Lists(r.value.orphaned, Retired(old(permissions), bin))
                        && r.value == ReportOf(old(State()), bin, r.value.orphaned)
    {
      hide Projected, Lists, Retired, ReportOf, Catalogued;
      var p, ro, g := permissions, roles, grants;
      r := InTransaction(bin, now, fails);
      if r.Ok? && EndTransaction in fails { r := Err(StoreFailure); }
      if r.Err? { permissions, roles, grants := p, ro, g; }
    }
  }

  // ---- the loops ----

  lemma CataloguedKeys(bin: Binary)
    requires Catalogued(bin)
    ensures DistinctBy(KeyOf, bin.catalogue)
  {}

  lemma {:induction false} UpsertedElsewhere(rows: map<string, Row>, ps: seq<Permission>, key: string)
    requires forall p :: p in ps ==> p.key != key
    ensures (key in Upserted(rows, ps) <==> key in rows) && (key in rows ==> Upserted(rows, ps)[key] == rows[key])
  {
    if ps != [] {
      var n := |ps| - 1;
      assert ps == ps[..n] + [ps[n]];
      UpsertedElsewhere(rows, ps[..n], key);
    }
  }

  lemma {:induction false} UpsertedIs(rows: map<string, Row>, ps: seq<Permission>)
    requires DistinctBy(KeyOf, ps)
    ensures forall p :: p in ps ==> p.key in Upserted(rows, ps) && Upserted(rows, ps)[p.key] == Shipped(p)
    ensures forall k :: k in rows ==> k in Upserted(rows, ps)
    ensures forall k :: k in Upserted(rows, ps) <==> k in rows || k in KeysOf(ps)
  {
    hide Shipped, KeysOf;
    if ps == [] {
      NoKeys();
    } else {
      var n := |ps| - 1;
      UpsertedIs(rows, ps[..n]);
      LastIsNew(ps);
      KeysSnoc(ps);
      assert ps == ps[..n] + [ps[n]];
    }
  }

  lemma NoKeys()
    ensures KeysOf([]) == []
  {}

  lemma KeysSnoc(ps: seq<Permission>)
    requires ps != []
    ensures KeysOf(ps) == KeysOf(ps[..|ps| - 1]) + [ps[|ps| - 1].key]
  {}

  lemma LastIsNew(ps: seq<Permission>)
    requires ps != [] && DistinctBy(KeyOf, ps)
    ensures forall p :: p in ps[..|ps| - 1] ==> p.key != ps[|ps| - 1].key
  {
    var n := |ps| - 1;
    forall p | p in ps[..n] ensures p.key != ps[n].key {
      var i :| 0 <= i < n && ps[..n][i] == p;
      assert KeyOf(ps[i]) != KeyOf(ps[n]);
    }
  }

  lemma UpsertedStores(rows: map<string, Row>, ps: seq<Permission>)
    requires DistinctBy(KeyOf, ps)
    ensures var after := Upserted(rows, ps);
            && (forall p :: p in ps ==> p.key in after && StoredAs(after[p.key], p))
            && (forall k :: k in rows && k !in KeysOf(ps) ==> k in after && after[k] == rows[k])
  {
    hide Upserted;
    UpsertedIs(rows, ps);
    forall k | k in rows && k !in KeysOf(ps) ensures Upserted(rows, ps)[k] == rows[k] {
      forall p | p in ps ensures p.key != k {
        var i :| 0 <= i < |ps| && ps[i] == p;
        assert KeysOf(ps)[i] == p.key;
      }
      UpsertedElsewhere(rows, ps, k);
    }
  }

  lemma SameIsShipped(row: Row, p: Permission)
    requires SameRow(row, p) && row.orphanedAt.None?
    ensures row == Shipped(p)
  {}

  lemma NothingListed(existing: map<string, Row>)
    ensures Upserted(existing, []) == existing
    ensures Filter((p: Permission) => IsNew(existing, p), []) == [] && Filter((p: Permission) => IsUpdated(existing, p), []) == []
    ensures KeysOf(Filter((p: Permission) => IsRestored(existing, p), [])) == []
  {}

  /** One turn of the loop over the catalogue. */
  lemma ListedNext(existing: map<string, Row>, ps: seq<Permission>, i: nat)
    requires i < |ps|
    ensures Upserted(existing, ps[..i + 1]) == Upserted(existing, ps[..i])[ps[i].key := Shipped(ps[i])]
    ensures |Filter((p: Permission) => IsNew(existing, p), ps[..i + 1])|
         == |Filter((p: Permission) => IsNew(existing, p), ps[..i])| + (if IsNew(existing, ps[i]) then 1 else 0)
    ensures |Filter((p: Permission) => IsUpdated(existing, p), ps[..i + 1])|
         == |Filter((p: Permission) => IsUpdated(existing, p), ps[..i])| + (if IsUpdated(existing, ps[i]) then 1 else 0)
    ensures KeysOf(Filter((p: Permission) => IsRestored(existing, p), ps[..i + 1]))
         == KeysOf(Filter((p: Permission) => IsRestored(existing, p), ps[..i])) + (if IsRestored(existing, ps[i]) then [ps[i].key] else [])
  {
    hide Shipped, IsNew, IsUpdated, IsRestored;
    assert ps[..i + 1][..i] == ps[..i];
  }

  lemma UntouchedIsShipped(existing: map<string, Row>, ps: seq<Permission>, i: nat)
    requires i < |ps| && DistinctBy(KeyOf, ps) && Untouched(existing, ps[i])
    ensures Upserted(existing, ps[..i])[ps[i].key := Shipped(ps[i])] == Upserted(existing, ps[..i])
  {
    forall p | p in ps[..i] ensures p.key != ps[i].key {
      var j :| 0 <= j < i && ps[..i][j] == p;
      assert KeyOf(ps[j]) != KeyOf(ps[i]);
    }
    UpsertedElsewhere(existing, ps[..i], ps[i].key);
    SameIsShipped(existing[ps[i].key], ps[i]);
  }

  lemma NoneGranted(t: Tables, fails: set<Statement>)
    ensures Granted(t, [], fails) == Some(t)
  {}

  /** One turn of the loop over a role's grants. */
  lemma GrantedNext(t: Tables, gs: seq<Grant>, i: nat, fails: set<Statement>)
    requires i < |gs| && Granted(t, gs[..i], fails).Some?
    ensures var before := Granted(t, gs[..i], fails).value;
            Granted(t, gs[..i + 1], fails) ==
              if InsertGrant(gs[i]) in fails || gs[i] in before.grants
                 || gs[i].permission !in before.permissions || gs[i].role !in before.roles then None
              else Some(before.(grants := before.grants + {gs[i]}))
  {
    assert gs[..i + 1][..i] == gs[..i];
  }

  lemma {:induction false} GrantFails(t: Tables, gs: seq<Grant>, i: nat, fails: set<Statement>)
    requires i <= |gs| && Granted(t, gs[..i], fails).None?
    ensures Granted(t, gs, fails).None?
    decreases |gs| - i
  {
    if i < |gs| {
      assert gs[..i + 1][..i] == gs[..i];
      GrantFails(t, gs, i + 1, fails);
    } else {
      assert gs[..i] == gs;
    }
  }

  lemma NoRoleSeeded(t: Tables, present: set<string>, now: int, fails: set<Statement>)
    ensures Seeded(t, present, [], now, fails) == Some(t) && SeededKeys(present, []) == [] && SeededGrants(present, []) == 0
  {}

  /** One turn of the loop over the built-in roles. */
  lemma SeededNext(t: Tables, present: set<string>, rs: seq<BuiltinRole>, i: nat, now: int, fails: set<Statement>)
    requires i < |rs| && Seeded(t, present, rs[..i], now, fails).Some?
    ensures var before, has := Seeded(t, present, rs[..i], now, fails).value, rs[i].key in present;
            && Seeded(t, present, rs[..i + 1], now, fails) == (if has then Some(before) else SeedOne(before, rs[i], now, fails))
            && SeededKeys(present, rs[..i + 1]) == SeededKeys(present, rs[..i]) + (if has then [] else [rs[i].key])
            && SeededGrants(present, rs[..i + 1]) == SeededGrants(present, rs[..i]) + (if has then 0 else |rs[i].permissions|)
  {
    hide SeedOne;
    assert rs[..i + 1][..i] == rs[..i];
  }

  lemma {:induction false} SeedFails(t: Tables, present: set<string>, rs: seq<BuiltinRole>, i: nat, now: int, fails: set<Statement>)
    requires i <= |rs| && Seeded(t, present, rs[..i], now, fails).None?
    ensures Seeded(t, present, rs, now, fails).None?
    decreases |rs| - i
  {
    hide SeedOne;
    if i < |rs| {
      assert rs[..i + 1][..i] == rs[..i];
      SeedFails(t, present, rs, i + 1, now, fails);
    } else {
      assert rs[..i] == rs;
    }
  }

  ghost function Listed(keys: seq<string>): set<string> { set k | k in keys }

  lemma ListsMembers(keys: seq<string>, s: set<string>)
    requires Lists(keys, s)
    ensures Listed(keys) == s && DistinctBy((k: string) => k, keys) && forall i :: 0 <= i < |keys| ==> keys[i] in s
  {
    StrLeReflexiveAll();
  }

  lemma StrLeReflexiveAll()
    ensures forall s :: StrLe(s, s)
  {
    forall s ensures StrLe(s, s) { StrLeReflexive(s); }
  }

  lemma OrphanedNone(rows: map<string, Row>, now: int)
    ensures Orphaned(rows, Listed([]), now) == rows
  {}

  lemma OrphanNext(rows: map<string, Row>, keys: seq<string>, i: nat, now: int)
    requires i < |keys| && DistinctBy((k: string) => k, keys) && keys[i] in rows
    ensures var before, after := Orphaned(rows, Listed(keys[..i]), now), Orphaned(rows, Listed(keys[..i + 1]), now);
            && keys[i] in before && before[keys[i]] == rows[keys[i]]
            && after == before[keys[i] := Stamped(rows[keys[i]], now)]
            && (rows[keys[i]].orphanedAt.Some? ==> after == before)
  {
    assert keys[..i + 1] == keys[..i] + [keys[i]];
    assert keys[i] !in keys[..i];
  }

  lemma RetiredUntouched(existing: map<string, Row>, bin: Binary)
    ensures forall k :: k in existing && !Ships(bin, k) ==>
              k in Upserted(existing, bin.catalogue) && Upserted(existing, bin.catalogue)[k] == existing[k]
  {
    forall k | k in existing && !Ships(bin, k)
      ensures k in Upserted(existing, bin.catalogue) && Upserted(existing, bin.catalogue)[k] == existing[k]
    {
      forall p | p in bin.catalogue ensures p.key != k {
        var i :| 0 <= i < |bin.catalogue| && bin.catalogue[i] == p;
        assert KeysOf(bin.catalogue)[i] == p.key;
      }
      UpsertedElsewhere(existing, bin.catalogue, k);
    }
  }

  lemma {:induction false} GrantedKeeps(t: Tables, gs: seq<Grant>, fails: set<Statement>)
    ensures var r := Granted(t, gs, fails);
            r.Some? ==>
              && r.value.permissions == t.permissions && r.value.roles == t.roles
              && (forall g :: g in r.value.grants <==> g in t.grants || g in gs)
              && (forall g :: g in gs ==> g.permission in t.permissions && g.role in t.roles)
  {
    if gs != [] {
      var n := |gs| - 1;
      assert gs == gs[..n] + [gs[n]];
      GrantedKeeps(t, gs[..n], fails);
    }
  }

  lemma {:induction false} SeededKeepsPermissions(t: Tables, present: set<string>, rs: seq<BuiltinRole>, now: int, fails: set<Statement>)
    ensures var r := Seeded(t, present, rs, now, fails);
            r.Some? ==> r.value.permissions == t.permissions
  {
    hide RoleFits, Granted, Grants;
    if rs != [] {
      var n := |rs| - 1;
      SeededKeepsPermissions(t, present, rs[..n], now, fails);
      var before := Seeded(t, present, rs[..n], now, fails);
      if before.Some? {
        var r := rs[n];
        GrantedKeeps(before.value.(roles := before.value.roles[r.id := RoleRow(Some(r.key), r.nameNorm, false, now)]), Grants(r), fails);
      }
    }
  }
}
