/** What reconciliation keeps over any sequence of binaries and role edits. */
module ReconcileRuns {
  import opened Wrappers
  import opened Int64
  import opened Ordering
  import opened Reconcile

  /** role_permission's two foreign keys. */
  ghost predicate ForeignKeys(t: Tables) {
    forall g :: g in t.grants ==> g.permission in t.permissions && g.role in t.roles
  }

  // ---- one boot ----

  /** Roles that were there keep their row and exactly their grants; nothing is lost. */
  ghost predicate KeepsRoles(t: Tables, after: Tables) {
    && (forall id :: id in t.roles ==> id in after.roles && after.roles[id] == t.roles[id])
    && (forall g :: g in t.grants ==> g in after.grants)
    && (forall g :: g in after.grants && g.role in t.roles ==> g in t.grants)
  }

  lemma SeedOneKeeps(t: Tables, r: BuiltinRole, now: int, fails: set<Statement>)
    requires ForeignKeys(t) && SeedOne(t, r, now, fails).Some?
    ensures var after := SeedOne(t, r, now, fails).value;
            && KeepsRoles(t, after) && ForeignKeys(after) && after.permissions == t.permissions
            && KeyPresent(after.roles, r.key)
  {
    hide Granted;
    var with := t.(roles := t.roles[r.id := RoleRow(Some(r.key), r.nameNorm, false, now)]);
    GrantedKeeps(with, Grants(r), fails);
    var after := SeedOne(t, r, now, fails).value;
    assert r.id in after.roles;
    forall g | g in Grants(r) ensures g.role == r.id {}
  }

  lemma {:induction false} SeededKeeps(t: Tables, present: set<string>, rs: seq<BuiltinRole>, now: int, fails: set<Statement>)
    requires ForeignKeys(t) && Seeded(t, present, rs, now, fails).Some?
    ensures var after := Seeded(t, present, rs, now, fails).value;
            && KeepsRoles(t, after) && ForeignKeys(after) && after.permissions == t.permissions
            && forall r :: r in rs ==> r.key in present || KeyPresent(after.roles, r.key)
  {
    hide SeedOne;
    if rs != [] {
      var n := |rs| - 1;
      assert rs == rs[..n] + [rs[n]];
      SeededKeeps(t, present, rs[..n], now, fails);
      if rs[n].key !in present {
        var before := Seeded(t, present, rs[..n], now, fails).value;
        var after := Seeded(t, present, rs, now, fails).value;
        SeedOneKeeps(before, rs[n], now, fails);
        forall r | r in rs ensures r.key in present || KeyPresent(after.roles, r.key) {
          if r in rs[..n] && r.key !in present {
            var id :| id in before.roles && before.roles[id].key == Some(r.key);
            assert id in after.roles;
          }
        }
      }
    }
  }

  /** What a successful boot makes of the permission table. */
  ghost predicate Projects(t: Tables, after: Tables, bin: Binary, now: int) {
    && (forall k :: k in after.permissions <==> k in t.permissions || Ships(bin, k))
    && (forall p :: p in bin.catalogue ==> p.key in after.permissions && after.permissions[p.key] == Shipped(p))
    && (forall k :: k in t.permissions && !Ships(bin, k) ==> k in after.permissions && after.permissions[k] == Stamped(t.permissions[k], now))
  }

  /** A row no longer shipped: its columns as they were, and stamped now unless it was before. */
  ghost predicate RetiredFrom(row: Row, was: Row, now: int) {
    && row.category == was.category && row.caption == was.caption && row.description == was.description
    && row.isDangerous == was.isDangerous && row.requiresStepUp == was.requiresStepUp && row.sortOrder == was.sortOrder
    && row.orphanedAt == (if was.orphanedAt == None then Some(now) else was.orphanedAt)
  }

  /** The permission table a boot leaves: what it ships, and what it retires. */
  ghost predicate StoresCatalogue(t: Tables, after: Tables, bin: Binary, now: int) {
    && (forall p :: p in bin.catalogue ==> p.key in after.permissions && StoredAs(after.permissions[p.key], p))
    && (forall k :: k in t.permissions && (forall p :: p in bin.catalogue ==> p.key != k) ==>
          k in after.permissions && RetiredFrom(after.permissions[k], t.permissions[k], now))
    && (forall k :: k in after.permissions ==> k in t.permissions || exists p :: p in bin.catalogue && p.key == k)
  }

  lemma ProjectsStores(t: Tables, after: Tables, bin: Binary, now: int)
    requires Projects(t, after, bin, now)
    ensures StoresCatalogue(t, after, bin, now)
  {
    hide Ships;
    ShipsKeys(bin);
  }

  ghost predicate Absent(t: Tables, key: string) { forall id :: id in t.roles ==> t.roles[id].key != Some(key) }

  /** A built-in role as a boot inserts it, with exactly the grants it lists. */
  ghost predicate InsertedAs(after: Tables, r: BuiltinRole, now: int) {
    && r.id in after.roles
    && after.roles[r.id].key == Some(r.key) && after.roles[r.id].nameNorm == r.nameNorm
    && !after.roles[r.id].deleted && after.roles[r.id].createdAt == now
    && forall k :: Grant(r.id, k) in after.grants <==> k in r.permissions
  }

  /** The built-in roles whose key no row had are inserted, and no others. */
  ghost predicate InsertsAbsent(t: Tables, after: Tables, rs: seq<BuiltinRole>, now: int) {
    && (forall r :: r in rs && Absent(t, r.key) ==> r.id !in t.roles && InsertedAs(after, r, now))
    && (forall id :: id in after.roles && id !in t.roles ==> exists r :: r in rs && r.id == id && Absent(t, r.key))
  }

  lemma SeedOneInserts(t: Tables, r: BuiltinRole, now: int, fails: set<Statement>)
    requires ForeignKeys(t) && SeedOne(t, r, now, fails).Some?
    ensures var after := SeedOne(t, r, now, fails).value;
            && r.id !in t.roles && InsertedAs(after, r, now)
            && after.roles.Keys == t.roles.Keys + {r.id}
  {
    hide Granted;
    var with := t.(roles := t.roles[r.id := RoleRow(Some(r.key), r.nameNorm, false, now)]);
    var gs := Grants(r);
    GrantedKeeps(with, gs, fails);
    forall k ensures Grant(r.id, k) in gs <==> k in r.permissions {
      if k in r.permissions {
        var i :| 0 <= i < |r.permissions| && r.permissions[i] == k;
        assert gs[i] == Grant(r.id, k);
      }
    }
  }

  lemma InsertedStays(t: Tables, after: Tables, r: BuiltinRole, now: int)
    requires InsertedAs(t, r, now) && KeepsRoles(t, after)
    ensures InsertedAs(after, r, now)
  {
    forall k ensures Grant(r.id, k) in after.grants <==> k in r.permissions {
      assert Grant(r.id, k).role == r.id;
    }
  }

  lemma {:induction false} SeededInserts(t: Tables, rs: seq<BuiltinRole>, now: int, fails: set<Statement>)
    requires ForeignKeys(t) && Seeded(t, PresentKeys(t.roles), rs, now, fails).Some?
    ensures var after := Seeded(t, PresentKeys(t.roles), rs, now, fails).value;
            InsertsAbsent(t, after, rs, now) && KeepsRoles(t, after) && ForeignKeys(after)
  {
    hide SeedOne, PresentKeys, InsertedAs, ForeignKeys, Absent, KeepsRoles;
    SeededKeeps(t, PresentKeys(t.roles), rs, now, fails);
    if rs != [] {
      var n := |rs| - 1;
      var before := Seeded(t, PresentKeys(t.roles), rs[..n], now, fails).value;
      assert rs == rs[..n] + [rs[n]];
      SeededInserts(t, rs[..n], now, fails);
      AbsentIs(t, rs[n].key);
      if Absent(t, rs[n].key) {
        SeedOneInserts(before, rs[n], now, fails);
        SeedOneKeeps(before, rs[n], now, fails);
        KeptIds(t, before);
        InsertsNext(t, before, Seeded(t, PresentKeys(t.roles), rs, now, fails).value, rs, now);
      } else {
        assert InsertsAbsent(t, before, rs, now);
      }
    }
  }

  lemma AbsentIs(t: Tables, key: string)
    ensures Absent(t, key) <==> key !in PresentKeys(t.roles)
  {
    if !Absent(t, key) {
      var id :| id in t.roles && t.roles[id].key == Some(key);
      assert id in t.roles && t.roles[id].key.Some? && t.roles[id].key.value == key;
    }
  }

  lemma KeptIds(t: Tables, after: Tables)
    requires KeepsRoles(t, after)
    ensures forall id :: id in t.roles ==> id in after.roles
  {}

  lemma InsertsNext(t: Tables, before: Tables, after: Tables, rs: seq<BuiltinRole>, now: int)
    requires rs != [] && InsertsAbsent(t, before, rs[..|rs| - 1], now) && KeepsRoles(before, after)
    requires forall id :: id in t.roles ==> id in before.roles
    requires var r := rs[|rs| - 1];
             && Absent(t, r.key) && r.id !in before.roles && InsertedAs(after, r, now)
             && after.roles.Keys == before.roles.Keys + {r.id}
    ensures InsertsAbsent(t, after, rs, now)
  {
    hide Absent, InsertedAs, KeepsRoles;
    var n := |rs| - 1;
    assert rs == rs[..n] + [rs[n]];
    forall r | r in rs && Absent(t, r.key) ensures r.id !in t.roles && InsertedAs(after, r, now) {
      if r in rs[..n] { InsertedStays(before, after, r, now); }
    }
    forall id | id in after.roles && id !in t.roles ensures exists r :: r in rs && r.id == id && Absent(t, r.key) {
      if id in before.roles {
        var r :| r in rs[..n] && r.id == id && Absent(t, r.key);
        assert r in rs;
      } else {
        assert rs[n] in rs && id == rs[n].id;
      }
    }
  }

  function Rows(t: Tables, bin: Binary, now: int): map<string, Row> {
    Orphaned(Upserted(t.permissions, bin.catalogue), Retired(t.permissions, bin), now)
  }

  lemma RowsProject(t: Tables, after: Tables, bin: Binary, now: int)
    requires Catalogued(bin) && after.permissions == Rows(t, bin, now)
    ensures Projects(t, after, bin, now)
  {
    hide Upserted, Shipped, Stamped, Ships;
    UpsertedIs(t.permissions, bin.catalogue);
    RetiredUntouched(t.permissions, bin);
    ShipsKeys(bin);
    ShipsIsKey(bin);
    forall k ensures k in after.permissions <==> k in t.permissions || Ships(bin, k) {}
  }

  lemma ShipsIsKey(bin: Binary)
    ensures forall k :: Ships(bin, k) <==> k in KeysOf(bin.catalogue)
  {}

  /** The parts of a boot that went through. */
  lemma BootParts(t: Tables, bin: Binary, now: int, fails: set<Statement>)
    requires Projected(t, bin, now, fails).Ok?
    ensures var upserted := t.(permissions := Upserted(t.permissions, bin.catalogue));
            var seeded := Seeded(upserted, PresentKeys(t.roles), bin.roles, now, fails);
            && seeded.Some?
            && Projected(t, bin, now, fails).value
                 == seeded.value.(permissions := Orphaned(seeded.value.permissions, Retired(t.permissions, bin), now))
            && Missing(Projected(t, bin, now, fails).value.permissions, bin.required) == []
  {
    hide Upserted, Seeded, PresentKeys, Orphaned, Retired, Missing, UpsertsFail, OrphansFail, GetsFail;
  }

  /** A successful boot: the shipped keys live as shipped, the others stamped, and no role touched. */
  lemma BootProjects(t: Tables, bin: Binary, now: int, fails: set<Statement>)
    requires ForeignKeys(t) && Catalogued(bin) && Projected(t, bin, now, fails).Ok?
    ensures var after := Projected(t, bin, now, fails).value;
            && Projects(t, after, bin, now) && KeepsRoles(t, after) && ForeignKeys(after)
            && StoresCatalogue(t, after, bin, now) && InsertsAbsent(t, after, bin.roles, now)
            && (forall r :: r in bin.roles ==> KeyPresent(after.roles, r.key))
            && (forall k :: k in bin.required ==> Ships(bin, k))
  {
    hide Projected, Seeded, Upserted, PresentKeys, Orphaned, Retired, Missing, Projects, KeyPresent, Ships, StoresCatalogue, InsertedAs;
    var upserted := t.(permissions := Upserted(t.permissions, bin.catalogue));
    var after := Projected(t, bin, now, fails).value;
    BootParts(t, bin, now, fails);
    UpsertedIs(t.permissions, bin.catalogue);
    SeededKeeps(upserted, PresentKeys(t.roles), bin.roles, now, fails);
    RowsProject(t, after, bin, now);
    ProjectsStores(t, after, bin, now);
    SeededInserts(upserted, bin.roles, now, fails);
    InsertsHere(t, upserted, Seeded(upserted, PresentKeys(t.roles), bin.roles, now, fails).value, after, bin.roles, now);
    SameKeys(t, after, bin, now);
    forall r | r in bin.roles ensures KeyPresent(after.roles, r.key) { PresentIsPresent(t, after, r.key); }
    forall k | k in bin.required ensures Ships(bin, k) { RequiredShips(t, after, bin, now, k); }
  }

  /** Only the permission table differs. */
  lemma InsertsHere(t: Tables, u: Tables, seeded: Tables, after: Tables, rs: seq<BuiltinRole>, now: int)
    requires u.roles == t.roles && seeded.roles == after.roles && seeded.grants == after.grants
    requires InsertsAbsent(u, seeded, rs, now)
    ensures InsertsAbsent(t, after, rs, now)
  {
    assert forall key :: Absent(u, key) == Absent(t, key);
    forall r | InsertedAs(seeded, r, now) ensures InsertedAs(after, r, now) {}
  }

  lemma SameKeys(t: Tables, after: Tables, bin: Binary, now: int)
    requires after.permissions == Rows(t, bin, now)
    ensures forall k :: k in Upserted(t.permissions, bin.catalogue) ==> k in after.permissions
  {
    hide Upserted, Retired;
  }

  lemma ShipsKeys(bin: Binary)
    ensures forall k :: Ships(bin, k) <==> exists p :: p in bin.catalogue && p.key == k
  {
    forall k ensures Ships(bin, k) <==> exists p :: p in bin.catalogue && p.key == k {
      if Ships(bin, k) {
        var i :| 0 <= i < |bin.catalogue| && KeysOf(bin.catalogue)[i] == k;
        assert bin.catalogue[i] in bin.catalogue;
      }
      if p :| p in bin.catalogue && p.key == k {
        var i :| 0 <= i < |bin.catalogue| && bin.catalogue[i] == p;
        assert KeysOf(bin.catalogue)[i] == k;
      }
    }
  }

  lemma PresentIsPresent(t: Tables, after: Tables, key: string)
    requires KeepsRoles(t, after) && (key in PresentKeys(t.roles) || KeyPresent(after.roles, key))
    ensures KeyPresent(after.roles, key)
  {
    if key in PresentKeys(t.roles) {
      var id :| id in t.roles && t.roles[id].key.Some? && t.roles[id].key.value == key;
      assert id in after.roles;
    }
  }

  lemma RequiredShips(t: Tables, after: Tables, bin: Binary, now: int, k: string)
    requires Projects(t, after, bin, now) && Missing(after.permissions, bin.required) == [] && k in bin.required
    ensures Ships(bin, k)
  {
    FilterMembers((k: string) => k !in after.permissions || after.permissions[k].orphanedAt.Some?, bin.required);
    assert k !in Missing(after.permissions, bin.required);
  }

  ghost predicate Differs(row: Row, p: Permission) {
    || row.category != p.category || row.caption != p.caption || row.description != p.description
    || row.isDangerous != (if p.isDangerous then 1 else 0)
    || row.requiresStepUp != (if p.requiresStepUp then 1 else 0)
    || row.sortOrder != p.sortOrder
  }

  ghost predicate FirstShipped(t: Tables, p: Permission) { p.key !in t.permissions }

  ghost predicate Revived(t: Tables, p: Permission) { p.key in t.permissions && t.permissions[p.key].orphanedAt != None }

  ghost predicate Changed(t: Tables, p: Permission) {
    p.key in t.permissions && t.permissions[p.key].orphanedAt == None && Differs(t.permissions[p.key], p)
  }

  /** What a report counts and names: the permissions without a row, with a live row that differs, and with a stamped one. */
  lemma ReportSays(t: Tables, bin: Binary, orphaned: seq<string>)
    ensures var r := ReportOf(t, bin, orphaned);
            && r.live == |bin.catalogue| && r.orphaned == orphaned
            && r.inserted == |Filter((p: Permission) => FirstShipped(t, p), bin.catalogue)|
            && r.updated == |Filter((p: Permission) => Changed(t, p), bin.catalogue)|
            && r.restored == KeysOf(Filter((p: Permission) => Revived(t, p), bin.catalogue))
            && var missing := Filter((r: BuiltinRole) => Absent(t, r.key), bin.roles);
            && r.rolesSeeded == Map((r: BuiltinRole) => r.key, missing)
            && r.grantsSeeded == Sum(Map((r: BuiltinRole) => |r.permissions|, missing))
  {
    hide KeysOf, Filter, Sum;
    var rows, ps := t.permissions, bin.catalogue;
    SameFilter((p: Permission) => IsNew(rows, p), (p: Permission) => FirstShipped(t, p), ps);
    SameFilter((p: Permission) => IsUpdated(rows, p), (p: Permission) => Changed(t, p), ps);
    SameFilter((p: Permission) => IsRestored(rows, p), (p: Permission) => Revived(t, p), ps);
    SeededKeysAre(t, bin.roles);
    SeededGrantsAre(t, bin.roles);
  }

  lemma {:induction false} SameFilter<T>(p: T -> bool, q: T -> bool, s: seq<T>)
    requires forall x :: x in s ==> p(x) == q(x)
    ensures Filter(p, s) == Filter(q, s)
  {
    if s != [] {
      var n := |s| - 1;
      assert s == s[..n] + [s[n]];
      SameFilter(p, q, s[..n]);
    }
  }

  lemma GrantsSnoc(rs: seq<BuiltinRole>, r: BuiltinRole)
    ensures Sum(Map((x: BuiltinRole) => |x.permissions|, rs + [r])) == Sum(Map((x: BuiltinRole) => |x.permissions|, rs)) + |r.permissions|
  {
    var f := (x: BuiltinRole) => |x.permissions|;
    assert Map(f, rs + [r]) == Map(f, rs) + [|r.permissions|];
    SumSnoc(Map(f, rs), |r.permissions|);
  }

  lemma {:induction false} SeededKeysAre(t: Tables, rs: seq<BuiltinRole>)
    ensures SeededKeys(PresentKeys(t.roles), rs) == Map((r: BuiltinRole) => r.key, Filter((r: BuiltinRole) => Absent(t, r.key), rs))
  {
    hide PresentKeys, Absent;
    if rs != [] {
      SeededKeysAre(t, rs[..|rs| - 1]);
      AbsentIs(t, rs[|rs| - 1].key);
    }
  }

  lemma {:induction false} SeededGrantsAre(t: Tables, rs: seq<BuiltinRole>)
    ensures SeededGrants(PresentKeys(t.roles), rs)
         == Sum(Map((r: BuiltinRole) => |r.permissions|, Filter((r: BuiltinRole) => Absent(t, r.key), rs)))
  {
    hide PresentKeys, Absent, Map, Sum;
    var f, p := (r: BuiltinRole) => |r.permissions|, (r: BuiltinRole) => Absent(t, r.key);
    if rs == [] {
      NoGrantsSum();
      assert Map(f, Filter(p, [])) == [];
    } else {
      var n := |rs| - 1;
      SeededGrantsAre(t, rs[..n]);
      AbsentIs(t, rs[n].key);
      GrantsSnoc(Filter(p, rs[..n]), rs[n]);
      assert Filter(p, rs[..n]) + [] == Filter(p, rs[..n]);
    }
  }

  lemma NoGrantsSum()
    ensures Sum([]) == 0
  {}

  /** A boot goes through only when every statement it sends does. */
  lemma BootSentAll(t: Tables, bin: Binary, now: int, fails: set<Statement>)
    requires Catalogued(bin) && Projected(t, bin, now, fails).Ok?
    ensures {ListPermissions, ListRoles, EndTransaction} !! fails
    ensures forall p :: p in bin.catalogue && (FirstShipped(t, p) || Revived(t, p) || Changed(t, p)) ==> Upsert(p.key) !in fails
    ensures forall r :: r in bin.roles && Absent(t, r.key) ==> InsertRole(r.id) !in fails
    ensures forall r, k :: r in bin.roles && Absent(t, r.key) && k in r.permissions ==> InsertGrant(Grant(r.id, k)) !in fails
    ensures forall k :: k in t.permissions && t.permissions[k].orphanedAt == None && (forall p :: p in bin.catalogue ==> p.key != k) ==>
      Orphan(k) !in fails
    ensures forall k :: k in bin.required ==> Get(k) !in fails
  {
    hide Seeded, Upserted, PresentKeys, Orphaned, Missing, Absent, Ships;
    var upserted := t.(permissions := Upserted(t.permissions, bin.catalogue));
    SeedingSentAll(upserted, bin.roles, now, fails);
    forall key ensures Absent(upserted, key) == Absent(t, key) { AbsentIs(t, key); AbsentIs(upserted, key); }
    ShipsKeys(bin);
    forall p | p in bin.catalogue && (FirstShipped(t, p) || Revived(t, p) || Changed(t, p)) ensures Upsert(p.key) !in fails {
      var i :| 0 <= i < |bin.catalogue| && bin.catalogue[i] == p;
      assert !Untouched(t.permissions, bin.catalogue[i]);
    }
    forall k | k in bin.required ensures Get(k) !in fails {
      var i :| 0 <= i < |bin.required| && bin.required[i] == k;
    }
  }

  lemma {:induction false} GrantsSent(t: Tables, gs: seq<Grant>, fails: set<Statement>)
    ensures Granted(t, gs, fails).Some? ==> forall g :: g in gs ==> InsertGrant(g) !in fails
  {
    if gs != [] {
      var n := |gs| - 1;
      assert gs == gs[..n] + [gs[n]];
      GrantsSent(t, gs[..n], fails);
    }
  }

  lemma {:induction false} SeedingSentAll(t: Tables, rs: seq<BuiltinRole>, now: int, fails: set<Statement>)
    requires Seeded(t, PresentKeys(t.roles), rs, now, fails).Some?
    ensures forall r :: r in rs && Absent(t, r.key) ==> InsertRole(r.id) !in fails
    ensures forall r, k :: r in rs && Absent(t, r.key) && k in r.permissions ==> InsertGrant(Grant(r.id, k)) !in fails
  {
    hide PresentKeys, Absent, Granted, RoleFits;
    if rs != [] {
      var n := |rs| - 1;
      assert rs == rs[..n] + [rs[n]];
      SeedingSentAll(t, rs[..n], now, fails);
      AbsentIs(t, rs[n].key);
      if Absent(t, rs[n].key) {
        var before, r := Seeded(t, PresentKeys(t.roles), rs[..n], now, fails).value, rs[n];
        GrantsSent(before.(roles := before.roles[r.id := RoleRow(Some(r.key), r.nameNorm, false, now)]), Grants(r), fails);
        forall k | k in r.permissions ensures InsertGrant(Grant(r.id, k)) !in fails {
          var i :| 0 <= i < |r.permissions| && r.permissions[i] == k;
          assert Grants(r)[i] == Grant(r.id, k);
        }
      }
    }
  }

  // ---- exactly when a boot goes through ----

  ghost predicate ToSeed(t: Tables, r: BuiltinRole) { r.key !in PresentKeys(t.roles) }

  /** No row has the role's id, and no live row its name. */
  ghost predicate RoleIsFree(roles: map<string, RoleRow>, r: BuiltinRole) {
    r.id !in roles && forall id :: id in roles ==> roles[id].deleted || roles[id].nameNorm != r.nameNorm
  }

  ghost predicate Once<T>(s: seq<T>) { forall i, j :: 0 <= i < j < |s| ==> s[i] != s[j] }

  lemma OnceSnoc<T>(s: seq<T>)
    requires s != []
    ensures Once(s) <==> Once(s[..|s| - 1]) && s[|s| - 1] !in s[..|s| - 1]
  {
    var n := |s| - 1;
    if Once(s[..n]) && s[n] !in s[..n] {
      forall i, j | 0 <= i < j < |s| ensures s[i] != s[j] { assert s[..n][i] == s[i] && (j < n ==> s[..n][j] == s[j]); }
    }
    if Once(s) {
      forall i, j | 0 <= i < j < n ensures s[..n][i] != s[..n][j] { assert s[i] != s[j]; }
    }
  }

  /** The role names no permission twice, and only permissions that have a row or are shipped. */
  ghost predicate GrantsFit(rows: map<string, Row>, r: BuiltinRole) {
    Once(r.permissions) && forall k :: k in r.permissions ==> k in rows
  }

  ghost predicate Apart(a: BuiltinRole, b: BuiltinRole) { a.id != b.id && a.key != b.key && a.nameNorm != b.nameNorm }

  ghost predicate Seedable(t: Tables, rs: seq<BuiltinRole>) {
    && (forall r :: r in rs && ToSeed(t, r) ==> RoleIsFree(t.roles, r) && GrantsFit(t.permissions, r))
    && forall i, j :: 0 <= i < j < |rs| && ToSeed(t, rs[i]) && ToSeed(t, rs[j]) ==> Apart(rs[i], rs[j])
  }

  ghost function SetOf(gs: seq<Grant>): set<Grant> { set g | g in gs }

  lemma SetOfSnoc(gs: seq<Grant>)
    requires gs != []
    ensures SetOf(gs) == SetOf(gs[..|gs| - 1]) + {gs[|gs| - 1]}
  {
    assert gs == gs[..|gs| - 1] + [gs[|gs| - 1]];
  }

  lemma {:induction false} GrantedIff(t: Tables, gs: seq<Grant>)
    requires forall g :: g in gs ==> g.role in t.roles && g !in t.grants
    ensures Granted(t, gs, {}).Some? <==> Once(gs) && forall g :: g in gs ==> g.permission in t.permissions
    ensures Granted(t, gs, {}).Some? ==> Granted(t, gs, {}).value == t.(grants := t.grants + SetOf(gs))
  {
    hide Once, SetOf;
    if gs == [] {
      NoGrants();
      assert t.grants + {} == t.grants;
    } else {
      var n := |gs| - 1;
      assert gs == gs[..n] + [gs[n]];
      GrantedIff(t, gs[..n]);
      OnceSnoc(gs);
      SetOfSnoc(gs);
      InSetOf(gs[..n], gs[n]);
      assert t.grants + SetOf(gs[..n]) + {gs[n]} == t.grants + (SetOf(gs[..n]) + {gs[n]});
    }
  }

  lemma InSetOf(gs: seq<Grant>, g: Grant)
    ensures g in SetOf(gs) <==> g in gs
  {}

  lemma NoGrants()
    ensures Once<Grant>([]) && SetOf([]) == {}
  {}

  lemma GrantsOfRole(t: Tables, r: BuiltinRole)
    ensures Once(Grants(r)) && (forall g :: g in Grants(r) ==> g.permission in t.permissions) <==> GrantsFit(t.permissions, r)
  {
    var gs := Grants(r);
    if forall g :: g in gs ==> g.permission in t.permissions {
      forall k | k in r.permissions ensures k in t.permissions {
        var i :| 0 <= i < |r.permissions| && r.permissions[i] == k;
        assert gs[i] in gs;
      }
    }
    if Once(gs) {
      forall i, j | 0 <= i < j < |r.permissions| ensures r.permissions[i] != r.permissions[j] { assert gs[i] != gs[j]; }
    }
  }

  function RowOf(r: BuiltinRole, now: int): RoleRow { RoleRow(Some(r.key), r.nameNorm, false, now) }

  lemma SeedOneIff(t: Tables, r: BuiltinRole, now: int)
    requires ForeignKeys(t)
    ensures SeedOne(t, r, now, {}).Some? <==> RoleFits(t.roles, r) && GrantsFit(t.permissions, r)
    ensures SeedOne(t, r, now, {}).Some? ==>
      var after := SeedOne(t, r, now, {}).value;
      after.roles == t.roles[r.id := RowOf(r, now)] && after.permissions == t.permissions && ForeignKeys(after)
  {
    hide Granted, Grants;
    if RoleFits(t.roles, r) {
      var with := t.(roles := t.roles[r.id := RowOf(r, now)]);
      RoleOfGrants(r);
      GrantedIff(with, Grants(r));
      GrantsOfRole(with, r);
    }
  }

  lemma RoleOfGrants(r: BuiltinRole)
    ensures forall g :: g in Grants(r) ==> g.role == r.id
  {}

  /** The roles after seeding a list: those before, and those that were missing. */
  ghost predicate SeededRoles(t: Tables, after: Tables, rs: seq<BuiltinRole>, now: int) {
    && (forall id :: id in after.roles <==> id in t.roles || exists r :: r in rs && ToSeed(t, r) && r.id == id)
    && (forall id :: id in t.roles ==> id in after.roles && after.roles[id] == t.roles[id])
    && (forall r :: r in rs && ToSeed(t, r) ==> r.id in after.roles && after.roles[r.id] == RowOf(r, now))
  }

  /** The next role of the list fits the roles so far exactly when it fits those at the start and is apart from the new. */
  lemma FitsNext(t: Tables, before: Tables, pre: seq<BuiltinRole>, r: BuiltinRole, now: int)
    requires SeededRoles(t, before, pre, now) && ToSeed(t, r)
    ensures RoleFits(before.roles, r) ==> r.id !in before.roles
    ensures RoleFits(before.roles, r) <==>
      RoleIsFree(t.roles, r) && forall x :: x in pre && ToSeed(t, x) ==> Apart(x, r)
  {
    hide ToSeed;
    NotPresent(t, r);
    if RoleFits(before.roles, r) {
      forall id | id in t.roles ensures t.roles[id].deleted || t.roles[id].nameNorm != r.nameNorm { assert id in before.roles; }
    } else if RoleIsFree(t.roles, r) && forall x :: x in pre && ToSeed(t, x) ==> Apart(x, r) {
      forall id | id in before.roles
        ensures before.roles[id].key != Some(r.key) && (before.roles[id].deleted || before.roles[id].nameNorm != r.nameNorm)
      {
        if id !in t.roles { var x :| x in pre && ToSeed(t, x) && x.id == id; }
      }
    }
  }

  lemma NotPresent(t: Tables, r: BuiltinRole)
    requires ToSeed(t, r)
    ensures forall id :: id in t.roles ==> t.roles[id].key != Some(r.key)
  {}

  lemma NothingSeeded(t: Tables, now: int)
    ensures Seedable(t, []) && SeededRoles(t, t, [], now)
  {}

  lemma {:induction false} SeededIff(t: Tables, rs: seq<BuiltinRole>, now: int)
    requires ForeignKeys(t)
    ensures Seeded(t, PresentKeys(t.roles), rs, now, {}).Some? <==> Seedable(t, rs)
    ensures Seeded(t, PresentKeys(t.roles), rs, now, {}).Some? ==>
      var after := Seeded(t, PresentKeys(t.roles), rs, now, {}).value;
      SeededRoles(t, after, rs, now) && after.permissions == t.permissions && ForeignKeys(after)
  {
    hide SeedOne, ForeignKeys, RoleFits, RoleIsFree, GrantsFit, PresentKeys, Apart, Seedable, SeededRoles;
    if rs == [] {
      NothingSeeded(t, now);
    } else {
      var n := |rs| - 1;
      assert rs == rs[..n] + [rs[n]];
      SeededIff(t, rs[..n], now);
      SeedableSnoc(t, rs);
      if Seedable(t, rs[..n]) && ToSeed(t, rs[n]) {
        var before := Seeded(t, PresentKeys(t.roles), rs[..n], now, {}).value;
        SeedOneIff(before, rs[n], now);
        FitsNext(t, before, rs[..n], rs[n], now);
        if SeedOne(before, rs[n], now, {}).Some? { SeededRolesSnoc(t, before, SeedOne(before, rs[n], now, {}).value, rs, now); }
      } else if Seedable(t, rs[..n]) {
        SeededRolesSkip(t, Seeded(t, PresentKeys(t.roles), rs[..n], now, {}).value, rs, now);
      }
    }
  }

  lemma SeedableSnoc(t: Tables, rs: seq<BuiltinRole>)
    requires rs != []
    ensures var n := |rs| - 1;
            Seedable(t, rs) <==>
              && Seedable(t, rs[..n])
              && (ToSeed(t, rs[n]) ==>
                    && RoleIsFree(t.roles, rs[n]) && GrantsFit(t.permissions, rs[n])
                    && forall x :: x in rs[..n] && ToSeed(t, x) ==> Apart(x, rs[n]))
  {
    hide ToSeed, RoleIsFree, GrantsFit, Apart;
    var n := |rs| - 1;
    assert rs == rs[..n] + [rs[n]];
    if Seedable(t, rs) && ToSeed(t, rs[n]) {
      forall x | x in rs[..n] && ToSeed(t, x) ensures Apart(x, rs[n]) {
        var i :| 0 <= i < n && rs[..n][i] == x;
        assert rs[i] == x;
      }
    }
    if Seedable(t, rs[..n]) {
      assert forall i, j :: 0 <= i < j < n && ToSeed(t, rs[i]) && ToSeed(t, rs[j]) ==> Apart(rs[..n][i], rs[..n][j]);
      assert forall i :: 0 <= i < n ==> rs[i] in rs[..n];
    }
    if Seedable(t, rs) {
      forall i, j | 0 <= i < j < n && ToSeed(t, rs[..n][i]) && ToSeed(t, rs[..n][j]) ensures Apart(rs[..n][i], rs[..n][j]) {
        assert rs[..n][i] == rs[i] && rs[..n][j] == rs[j];
      }
    }
  }

  lemma SeededRolesSkip(t: Tables, after: Tables, rs: seq<BuiltinRole>, now: int)
    requires rs != [] && !ToSeed(t, rs[|rs| - 1]) && SeededRoles(t, after, rs[..|rs| - 1], now)
    ensures SeededRoles(t, after, rs, now)
  {
    hide ToSeed;
    var n := |rs| - 1;
    assert rs == rs[..n] + [rs[n]];
    forall id ensures id in after.roles <==> id in t.roles || exists r :: r in rs && ToSeed(t, r) && r.id == id {
      if r :| r in rs && ToSeed(t, r) && r.id == id { assert r in rs[..n]; }
    }
  }

  lemma SeededRolesSnoc(t: Tables, before: Tables, after: Tables, rs: seq<BuiltinRole>, now: int)
    requires rs != [] && ToSeed(t, rs[|rs| - 1]) && SeededRoles(t, before, rs[..|rs| - 1], now)
    requires rs[|rs| - 1].id !in before.roles
    requires after.roles == before.roles[rs[|rs| - 1].id := RowOf(rs[|rs| - 1], now)]
    ensures SeededRoles(t, after, rs, now)
  {
    hide ToSeed;
    var n := |rs| - 1;
    assert rs == rs[..n] + [rs[n]];
    forall id ensures id in after.roles <==> id in t.roles || exists r :: r in rs && ToSeed(t, r) && r.id == id {
      if id == rs[n].id { assert rs[n] in rs; }
      if r :| r in rs && ToSeed(t, r) && r.id == id { assert r in rs[..n] || r == rs[n]; }
    }
  }

  /** Seeding fits the tables of a boot: its roles that are missing, against rows and shipped keys. */
  ghost predicate SeedingFits(t: Tables, bin: Binary) {
    && (forall r :: r in bin.roles && ToSeed(t, r) ==>
          && RoleIsFree(t.roles, r)
          && Once(r.permissions)
          && forall k :: k in r.permissions ==> k in t.permissions || Ships(bin, k))
    && forall i, j :: 0 <= i < j < |bin.roles| && ToSeed(t, bin.roles[i]) && ToSeed(t, bin.roles[j]) ==>
         Apart(bin.roles[i], bin.roles[j])
  }

  lemma SeedingIsSeedable(t: Tables, bin: Binary)
    requires Catalogued(bin)
    ensures SeedingFits(t, bin) <==> Seedable(t.(permissions := Upserted(t.permissions, bin.catalogue)), bin.roles)
  {
    hide Upserted, PresentKeys, RoleIsFree, Apart, Shipped;
    var upserted := t.(permissions := Upserted(t.permissions, bin.catalogue));
    UpsertedIs(t.permissions, bin.catalogue);
    assert forall r :: ToSeed(t, r) == ToSeed(upserted, r);
    forall r: BuiltinRole
      ensures GrantsFit(upserted.permissions, r) <==>
        Once(r.permissions) && forall k :: k in r.permissions ==> k in t.permissions || Ships(bin, k)
    {}
  }

  /**
   * With a sound store a boot goes through exactly when the roles it has to seed fit, and every key
   * a route requires is shipped. A fresh install seeds them all; a guild that has them, none.
   */
  lemma BootsIff(t: Tables, bin: Binary, now: int)
    requires ForeignKeys(t) && Catalogued(bin)
    ensures Projected(t, bin, now, {}).Ok? <==> SeedingFits(t, bin) && forall k :: k in bin.required ==> Ships(bin, k)
  {
    hide Upserted, Shipped, Stamped, PresentKeys, Seeded, Seedable, Orphaned, Retired, Missing, Ships, Projects, SeedingFits, SeededRoles;
    var upserted := t.(permissions := Upserted(t.permissions, bin.catalogue));
    UpsertedIs(t.permissions, bin.catalogue);
    assert ForeignKeys(upserted);
    SeededIff(upserted, bin.roles, now);
    SeedingIsSeedable(t, bin);
    if Projected(t, bin, now, {}).Ok? {
      BootParts(t, bin, now, {});
      BootProjects(t, bin, now, {});
    } else if SeedingFits(t, bin) && forall k :: k in bin.required ==> Ships(bin, k) {
      ShippedResolve(t, t.(permissions := Rows(t, bin, now)), bin, now);
      NothingMissing(Rows(t, bin, now), bin);
    }
  }

  /** When keys that routes require are not shipped, all of them are named, in the order asked, and nothing changes. */
  lemma MissingAreNamed(t: Tables, bin: Binary, now: int)
    requires ForeignKeys(t) && Catalogued(bin) && SeedingFits(t, bin)
    requires exists k :: k in bin.required && !Ships(bin, k)
    ensures Projected(t, bin, now, {}) == Err(MissingPermission(Filter((k: string) => !Ships(bin, k), bin.required)))
    ensures Boot(t, bin, now, {}) == t
  {
    hide Upserted, Shipped, Stamped, PresentKeys, Seeded, Seedable, Orphaned, Retired, Ships, SeedingFits, SeededRoles, Projects;
    var upserted := t.(permissions := Upserted(t.permissions, bin.catalogue));
    UpsertedIs(t.permissions, bin.catalogue);
    assert ForeignKeys(upserted);
    SeededIff(upserted, bin.roles, now);
    SeedingIsSeedable(t, bin);
    UnshippedAreMissing(t, t.(permissions := Rows(t, bin, now)), bin, now);
  }

  lemma UnshippedAreMissing(t: Tables, after: Tables, bin: Binary, now: int)
    requires Catalogued(bin) && after.permissions == Rows(t, bin, now)
    requires exists k :: k in bin.required && !Ships(bin, k)
    ensures Missing(after.permissions, bin.required) == Filter((k: string) => !Ships(bin, k), bin.required)
    ensures Missing(after.permissions, bin.required) != []
  {
    hide Rows, Ships, Shipped, Stamped;
    RowsProject(t, after, bin, now);
    ShippedResolve(t, after, bin, now);
    var rows := after.permissions;
    forall k | k in bin.required ensures (k !in rows || rows[k].orphanedAt.Some?) == !Ships(bin, k) {
      if !Ships(bin, k) && k in rows { StampedIs(t.permissions[k], now); }
    }
    SameFilter((k: string) => k !in rows || rows[k].orphanedAt.Some?, (k: string) => !Ships(bin, k), bin.required);
    FilterMembers((k: string) => !Ships(bin, k), bin.required);
    var k :| k in bin.required && !Ships(bin, k);
    assert k in Filter((k: string) => !Ships(bin, k), bin.required);
  }

  lemma StampedIs(row: Row, now: int)
    ensures Stamped(row, now).orphanedAt.Some?
  {}

  lemma ShippedResolve(t: Tables, after: Tables, bin: Binary, now: int)
    requires Catalogued(bin) && after.permissions == Rows(t, bin, now)
    ensures forall k :: Ships(bin, k) ==> k in after.permissions && after.permissions[k].orphanedAt.None?
  {
    hide Rows, Shipped, Ships;
    RowsProject(t, after, bin, now);
    ShipsKeys(bin);
    forall k | Ships(bin, k) ensures k in after.permissions && after.permissions[k].orphanedAt.None? {
      var p :| p in bin.catalogue && p.key == k;
      ShippedIsLive(p);
    }
  }

  lemma NothingMissing(rows: map<string, Row>, bin: Binary)
    requires forall k :: k in bin.required ==> k in rows && rows[k].orphanedAt.None?
    ensures Missing(rows, bin.required) == []
  {
    FilterNone((k: string) => k !in rows || rows[k].orphanedAt.Some?, bin.required);
  }

  lemma {:induction false} NoneSeeded(t: Tables, present: set<string>, rs: seq<BuiltinRole>, now: int, fails: set<Statement>)
    requires forall r :: r in rs ==> r.key in present
    ensures Seeded(t, present, rs, now, fails) == Some(t)
    ensures SeededKeys(present, rs) == [] && SeededGrants(present, rs) == 0
  {
    if rs != [] {
      var n := |rs| - 1;
      assert rs == rs[..n] + [rs[n]];
      NoneSeeded(t, present, rs[..n], now, fails);
    }
  }

  lemma PresentAfter(after: Tables, key: string)
    requires KeyPresent(after.roles, key)
    ensures key in PresentKeys(after.roles)
  {
    var id :| id in after.roles && after.roles[id].key == Some(key);
    assert id in after.roles && after.roles[id].key.Some? && after.roles[id].key.value == key;
  }

  /** Booting the same binary again changes no row and reports no change. */
  lemma SecondBootChangesNothing(t: Tables, bin: Binary, now: int, fails: set<Statement>, later: int, orphaned: seq<string>)
    requires ForeignKeys(t) && Catalogued(bin) && Projected(t, bin, now, fails).Ok?
    ensures var after := Projected(t, bin, now, fails).value;
            && Projected(after, bin, later, {}) == Ok(after)
            && ReportOf(after, bin, orphaned) == Report(|bin.catalogue|, 0, 0, orphaned, [], [], 0)
  {
    hide Upserted, Shipped, Seeded, PresentKeys, Retired, Missing;
    var after := Projected(t, bin, now, fails).value;
    BootProjects(t, bin, now, fails);
    forall r | r in bin.roles ensures r.key in PresentKeys(after.roles) { PresentAfter(after, r.key); }
    SteadyRows(t, after, bin, now, later);
    NoneSeeded(after, PresentKeys(after.roles), bin.roles, later, {});
    SteadyReport(t, after, bin, now);
    ShipsKeys(bin);
    forall k | k in bin.required ensures k in after.permissions && after.permissions[k].orphanedAt.None? {
      var p :| p in bin.catalogue && p.key == k;
      ShippedIsLive(p);
    }
    NothingMissing(after.permissions, bin);
  }

  lemma ShippedIsLive(p: Permission)
    ensures Shipped(p).orphanedAt.None? && SameRow(Shipped(p), p)
  {}

  lemma {:induction false} UpsertingShipped(rows: map<string, Row>, ps: seq<Permission>)
    requires forall p :: p in ps ==> p.key in rows && rows[p.key] == Shipped(p)
    ensures Upserted(rows, ps) == rows
  {
    hide Shipped;
    if ps != [] {
      var n := |ps| - 1;
      assert ps == ps[..n] + [ps[n]];
      UpsertingShipped(rows, ps[..n]);
    }
  }

  lemma SteadyRows(t: Tables, after: Tables, bin: Binary, now: int, later: int)
    requires Projects(t, after, bin, now)
    ensures Upserted(after.permissions, bin.catalogue) == after.permissions
    ensures Orphaned(after.permissions, Retired(after.permissions, bin), later) == after.permissions
  {
    hide Shipped, Upserted, Ships, KeysOf;
    var rows := after.permissions;
    UpsertingShipped(rows, bin.catalogue);
    forall k | k in Retired(rows, bin) ensures rows[k].orphanedAt.Some? { assert rows[k] == Stamped(t.permissions[k], now); }
  }

  lemma SteadyReport(t: Tables, after: Tables, bin: Binary, now: int)
    requires Projects(t, after, bin, now)
    ensures var rows := after.permissions;
            && Filter((p: Permission) => IsNew(rows, p), bin.catalogue) == []
            && Filter((p: Permission) => IsUpdated(rows, p), bin.catalogue) == []
            && Filter((p: Permission) => IsRestored(rows, p), bin.catalogue) == []
  {
    hide Shipped, SameRow;
    var rows := after.permissions;
    forall p | p in bin.catalogue ensures !IsNew(rows, p) && !IsUpdated(rows, p) && !IsRestored(rows, p) { ShippedIsLive(p); }
    FilterNone((p: Permission) => IsNew(rows, p), bin.catalogue);
    FilterNone((p: Permission) => IsUpdated(rows, p), bin.catalogue);
    FilterNone((p: Permission) => IsRestored(rows, p), bin.catalogue);
  }

  // ---- runs ----

  /** A process boots, or somebody edits roles and grants. */
  datatype Step = BootStep(bin: Binary, now: int, fails: set<Statement>) | EditRoles(roles: map<string, RoleRow>, grants: set<Grant>)

  ghost function After(t: Tables, step: Step): Tables {
    match step
    case BootStep(bin, now, fails) => Boot(t, bin, now, fails)
    case EditRoles(roles, grants) =>
      var edited := t.(roles := roles, grants := grants);
      if ForeignKeys(edited) then edited else t
  }

  ghost function Run(t: Tables, steps: seq<Step>): Tables {
    if steps == [] then t else After(Run(t, steps[..|steps| - 1]), steps[|steps| - 1])
  }

  ghost predicate AllCatalogued(steps: seq<Step>) {
    forall i :: 0 <= i < |steps| && steps[i].BootStep? ==> Catalogued(steps[i].bin)
  }

  /** Over any run every grant references a row, and no permission row is ever lost. */
  lemma {:induction false} RunKeepsRows(t: Tables, steps: seq<Step>)
    requires ForeignKeys(t) && AllCatalogued(steps)
    ensures ForeignKeys(Run(t, steps))
    ensures forall k :: k in t.permissions ==> k in Run(t, steps).permissions
  {
    hide Projected, Catalogued, ForeignKeys;
    if steps != [] {
      var n := |steps| - 1;
      RunKeepsRows(t, steps[..n]);
      StepKeepsRows(Run(t, steps[..n]), steps[n]);
    }
  }

  lemma StepKeepsRows(t: Tables, step: Step)
    requires ForeignKeys(t) && (step.BootStep? ==> Catalogued(step.bin))
    ensures ForeignKeys(After(t, step)) && forall k :: k in t.permissions ==> k in After(t, step).permissions
    ensures step.BootStep? ==> KeepsRoles(t, After(t, step))
  {
    hide Projected, Catalogued;
    if step.BootStep? && Projected(t, step.bin, step.now, step.fails).Ok? {
      BootProjects(t, step.bin, step.now, step.fails);
    }
  }

  /** Step `j` of a run is a boot that went through. */
  ghost predicate Booted(t: Tables, steps: seq<Step>, j: nat)
    requires j < |steps|
  {
    steps[j].BootStep? && Projected(Run(t, steps[..j]), steps[j].bin, steps[j].now, steps[j].fails).Ok?
  }

  ghost predicate BootedShipping(t: Tables, steps: seq<Step>, j: nat, key: string)
    requires j < |steps|
  {
    Booted(t, steps, j) && Ships(steps[j].bin, key)
  }

  /** Boot `i` is the last one that shipped the key. */
  ghost predicate LastShipped(t: Tables, steps: seq<Step>, i: nat, key: string) {
    && i < |steps| && BootedShipping(t, steps, i, key)
    && forall j :: i < j < |steps| ==> !BootedShipping(t, steps, j, key)
  }

  /** Boot `j` is the first one after boot `i`. */
  ghost predicate FirstAfter(t: Tables, steps: seq<Step>, i: nat, j: nat) {
    && i < j < |steps| && steps[j].BootStep? && Booted(t, steps, j) && forall m :: i < m < j ==> !Booted(t, steps, m)
  }

  /** The stamp of a key last shipped by boot `i`: the time of the first boot without it. */
  ghost predicate StampIs(t: Tables, steps: seq<Step>, i: nat, at: Option<int>) {
    match at
    case None => forall j :: i < j < |steps| ==> !Booted(t, steps, j)
    case Some(time) => exists j: nat :: FirstAfter(t, steps, i, j) && steps[j].now == time
  }

  lemma BootedPrefix(t: Tables, steps: seq<Step>, n: nat, j: nat)
    requires j < n <= |steps|
    ensures Booted(t, steps[..n], j) == Booted(t, steps, j)
    ensures forall key :: BootedShipping(t, steps[..n], j, key) == BootedShipping(t, steps, j, key)
  {
    assert steps[..n][..j] == steps[..j];
  }

  /**
   * Over any run of different binaries, from a table without rows: a row was shipped by some boot;
   * it is live exactly while no later boot has gone without it; and otherwise it carries the time of
   * the first boot of its current absence, however often the instance was restarted since.
   */
  lemma {:induction false} StampIsFirstAbsence(t: Tables, steps: seq<Step>, key: string)
    requires ForeignKeys(t) && t.permissions == map[] && AllCatalogued(steps) && key in Run(t, steps).permissions
    ensures exists i: nat :: LastShipped(t, steps, i, key) && StampIs(t, steps, i, Run(t, steps).permissions[key].orphanedAt)
  {
    hide Projected, Catalogued, Ships, ForeignKeys, After;
    var n := |steps| - 1;
    var pre, before, step := steps[..n], Run(t, steps[..n]), steps[n];
    RunKeepsRows(t, pre);
    forall j: nat | j < n ensures Booted(t, pre, j) == Booted(t, steps, j) && BootedShipping(t, pre, j, key) == BootedShipping(t, steps, j, key) {
      BootedPrefix(t, steps, n, j);
    }
    LastStep(t, steps, key);
    if BootedShipping(t, steps, n, key) {
      assert LastShipped(t, steps, n, key) && StampIs(t, steps, n, None);
    } else {
      StampIsFirstAbsence(t, pre, key);
      var i: nat :| LastShipped(t, pre, i, key) && StampIs(t, pre, i, before.permissions[key].orphanedAt);
      assert LastShipped(t, steps, i, key);
      StampCarries(t, steps, i, before.permissions[key].orphanedAt);
    }
  }

  /** What the last step of a run does to one row. */
  lemma LastStep(t: Tables, steps: seq<Step>, key: string)
    requires steps != [] && ForeignKeys(Run(t, steps[..|steps| - 1])) && AllCatalogued(steps) && key in Run(t, steps).permissions
    ensures var n := |steps| - 1;
            var before, after := Run(t, steps[..n]).permissions, Run(t, steps).permissions;
            if BootedShipping(t, steps, n, key) then after[key].orphanedAt == None
            else
              && key in before
              && after[key].orphanedAt ==
                   if steps[n].BootStep? && Booted(t, steps, n) && before[key].orphanedAt.None? then Some(steps[n].now) else before[key].orphanedAt
  {
    hide Projected, Catalogued, Shipped;
    var n := |steps| - 1;
    var step := steps[n];
    if Booted(t, steps, n) {
      BootProjects(Run(t, steps[..n]), step.bin, step.now, step.fails);
      ShipsKeys(step.bin);
      if Ships(step.bin, key) {
        var p :| p in step.bin.catalogue && p.key == key;
        ShippedIsLive(p);
      }
    }
  }

  lemma BootedIsBoot(t: Tables, steps: seq<Step>, j: nat)
    requires j < |steps|
    ensures Booted(t, steps, j) ==> steps[j].BootStep?
  {}

  lemma StampCarries(t: Tables, steps: seq<Step>, i: nat, at: Option<int>)
    requires steps != [] && i < |steps| - 1 && StampIs(t, steps[..|steps| - 1], i, at)
    ensures var n := |steps| - 1;
            StampIs(t, steps, i, if steps[n].BootStep? && Booted(t, steps, n) && at.None? then Some(steps[n].now) else at)
  {
    hide Booted, Run;
    var n := |steps| - 1;
    var pre := steps[..n];
    forall j: nat | j < n ensures Booted(t, pre, j) == Booted(t, steps, j) { BootedPrefix(t, steps, n, j); }
    match at {
      case None =>
        if Booted(t, steps, n) {
          BootedIsBoot(t, steps, n);
          assert FirstAfter(t, steps, i, n);
        }
      case Some(time) =>
        var j: nat :| FirstAfter(t, pre, i, j) && pre[j].now == time;
        assert FirstAfter(t, steps, i, j);
    }
  }
}
