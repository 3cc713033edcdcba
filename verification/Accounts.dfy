// The durable account table as values: its JSON tree, the two files it lives
// in, and what each operation of JsonDB does to memory and disk.
module Accounts {
  import opened Prelude
  import opened Json

  datatype Resources = Resources(wood: nat, food: nat, iron: nat)
  datatype Account = Account(password: string, uuid: string, resources: Resources, campLevels: map<string, int>)
  type Table = map<string, Account>

  const NO_RESOURCES := Resources(0, 0, 0)

  predicate TypedResources(r: Resources) {
    r.wood < U64 && r.food < U64 && r.iron < U64
  }

  // What the C++ field types can hold.
  predicate Typed(t: Table) {
    forall u | u in t ::
      TypedResources(t[u].resources)
      && forall c | c in t[u].campLevels :: -I32_HALF <= t[u].campLevels[c] < I32_HALF
  }

  // ------------------------------------------------------------------ JSON tree

  function EncodeResources(r: Resources): Json {
    Obj(map["wood" := Num(r.wood), "food" := Num(r.food), "iron" := Num(r.iron)])
  }

  function EncodeLevels(levels: map<string, int>): Json {
    Obj(map c | c in levels :: Num(levels[c]))
  }

  function EncodeAccount(a: Account): Json {
    Obj(map["password" := Str(a.password), "uuid" := Str(a.uuid),
            "resources" := EncodeResources(a.resources), "campLevels" := EncodeLevels(a.campLevels)])
  }

  function EncodeAccounts(t: Table): Json {
    Obj(map u | u in t :: EncodeAccount(t[u]))
  }

  function Encode(t: Table): Json {
    Obj(map["accounts" := EncodeAccounts(t)])
  }

  // json::value: the member or a default; None stands for the exception a
  // member of another type, or a value that is no object, throws.
  function TextOr(j: Json, key: string, default: string): Option<string> {
    if !j.Obj? then None
    else if key !in j.m then Some(default)
    else if j.m[key].Str? then Some(j.m[key].s)
    else None
  }

  function Unsigned64Or(j: Json, key: string, default: nat): (r: Option<nat>)
    ensures default < U64 && r.Some? ==> r.value < U64
  {
    if !j.Obj? then None
    else if key !in j.m then Some(default)
    else if j.m[key].Num? then Some(j.m[key].n % U64)
    else None
  }

  function DecodeResources(j: Json): (r: Option<Resources>)
    ensures r.Some? ==> TypedResources(r.value)
  {
    var wood, food, iron := Unsigned64Or(j, "wood", 0), Unsigned64Or(j, "food", 0), Unsigned64Or(j, "iron", 0);
    if wood.Some? && food.Some? && iron.Some?
    then Some(Resources(wood.value, food.value, iron.value))
    else None
  }

  // items() of an object; items() of a bare number yields it once, under "".
  function DecodeLevels(j: Json): Option<map<string, int>> {
    match j
    case Str(_) => None
    case Num(n) => Some(map["" := ToInt32(n)])
    case Obj(m) =>
      if forall c | c in m :: m[c].Num? then Some(map c | c in m :: ToInt32(m[c].n)) else None
  }

  function DecodeAccount(j: Json): Option<Account> {
    var password, uuid := TextOr(j, "password", ""), TextOr(j, "uuid", "");
    if password.None? || uuid.None? then None
    else
      var resources := DecodeResources(if "resources" in j.m then j.m["resources"] else Obj(map[]));
      var levels := if "campLevels" in j.m then DecodeLevels(j.m["campLevels"]) else Some(map[]);
      if resources.None? || levels.None? then None
      else Some(Account(password.value, uuid.value, resources.value, levels.value))
  }

  function DecodeAccounts(j: Json): Option<Table> {
    if j.Obj? && forall u | u in j.m :: DecodeAccount(j.m[u]).Some?
    then Some(map u | u in j.m :: DecodeAccount(j.m[u]).value)
    else None
  }

  function Decode(top: Json): Option<Table> {
    if !top.Obj? then None
    else if "accounts" in top.m then DecodeAccounts(top.m["accounts"])
    else Some(map[])
  }

  lemma DecodeIsTyped(top: Json)
    ensures Decode(top).Some? ==> Typed(Decode(top).value)
  {
  }

  lemma AccountRoundTrip(a: Account)
    requires TypedResources(a.resources)
    requires forall c | c in a.campLevels :: -I32_HALF <= a.campLevels[c] < I32_HALF
    ensures DecodeAccount(EncodeAccount(a)) == Some(a)
  {
    var j := EncodeAccount(a);
    assert DecodeResources(j.m["resources"]) == Some(a.resources) by {
      var r := EncodeResources(a.resources);
      assert Unsigned64Or(r, "wood", 0) == Some(a.resources.wood);
      assert Unsigned64Or(r, "food", 0) == Some(a.resources.food);
      assert Unsigned64Or(r, "iron", 0) == Some(a.resources.iron);
    }
    assert DecodeLevels(j.m["campLevels"]) == Some(a.campLevels) by {
      var l := EncodeLevels(a.campLevels);
      assert (map c | c in l.m :: ToInt32(l.m[c].n)) == a.campLevels;
    }
    assert TextOr(j, "password", "") == Some(a.password);
    assert TextOr(j, "uuid", "") == Some(a.uuid);
  }

  lemma DecodeEach(m: map<string, Json>, t: Table)
    requires m.Keys == t.Keys && forall u | u in m :: DecodeAccount(m[u]) == Some(t[u])
    ensures DecodeAccounts(Obj(m)) == Some(t)
  {
    assert forall u | u in Obj(m).m :: DecodeAccount(Obj(m).m[u]).Some?;
    assert (map u | u in m :: DecodeAccount(m[u]).value) == t;
  }

  lemma AccountsRoundTrip(t: Table)
    requires Typed(t)
    ensures DecodeAccounts(EncodeAccounts(t)) == Some(t)
  {
    forall u | u in t ensures DecodeAccount(EncodeAccount(t[u])) == Some(t[u]) {
      AccountRoundTrip(t[u]);
    }
    DecodeEach(map u | u in t :: EncodeAccount(t[u]), t);
  }

  // What save writes, load reads back: passwords, uuids, resources, camp levels.
  lemma SaveLoadRoundTrip(t: Table)
    requires Typed(t)
    ensures Decode(Encode(t)) == Some(t)
  {
    AccountsRoundTrip(t);
  }

  // A file with missing members is completed by the first save, and stays.
  lemma NormalizingIsStable(top: Json)
    requires Decode(top).Some?
    ensures Decode(Encode(Decode(top).value)) == Decode(top)
  {
    DecodeIsTyped(top);
    SaveLoadRoundTrip(Decode(top).value);
  }

  // ------------------------------------------------------------- the file's layout

  // A file written by anyone: where each member is looked for, and what it becomes.
  lemma FileLayout(password: string, uuid: string, wood: int, food: int, iron: int, levels: map<string, int>)
    ensures DecodeAccount(Obj(map[
              "password" := Str(password), "uuid" := Str(uuid),
              "resources" := Obj(map["wood" := Num(wood), "food" := Num(food), "iron" := Num(iron)]),
              "campLevels" := Obj(map c | c in levels :: Num(levels[c]))]))
            == Some(Account(password, uuid, Resources(wood % U64, food % U64, iron % U64),
                            map c | c in levels :: ToInt32(levels[c])))
  {
    var r := Obj(map["wood" := Num(wood), "food" := Num(food), "iron" := Num(iron)]);
    var l := Obj(map c | c in levels :: Num(levels[c]));
    assert DecodeResources(r) == Some(Resources(wood % U64, food % U64, iron % U64)) by {
      assert r.m["wood"] == Num(wood) && r.m["food"] == Num(food) && r.m["iron"] == Num(iron);
    }
    assert (map c | c in l.m :: ToInt32(l.m[c].n)) == (map c | c in levels :: ToInt32(levels[c]));
    var m := map["password" := Str(password), "uuid" := Str(uuid), "resources" := r, "campLevels" := l];
    assert m["password"] == Str(password) && m["uuid"] == Str(uuid) && m["resources"] == r && m["campLevels"] == l;
  }

  // get<int>: the value modulo 2^32 that an int can hold.
  lemma Truncated(n: int)
    ensures -I32_HALF <= ToInt32(n) < I32_HALF && (n - ToInt32(n)) % U32 == 0
  {
  }

  const DEFAULTS := map["password" := Str(""), "uuid" := Str(""), "resources" := Obj(map[]), "campLevels" := Obj(map[])]

  lemma NoLevels()
    ensures DecodeLevels(Obj(map[])) == Some(map[])
  {
    assert DecodeLevels(Obj(map[])).value.Keys == {};
  }

  // A member that is missing is read as its default.
  lemma MissingIsDefault(m: map<string, Json>, key: string)
    requires key !in m && key in DEFAULTS
    ensures DecodeAccount(Obj(m)) == DecodeAccount(Obj(m[key := DEFAULTS[key]]))
  {
    hide DecodeResources;
    if key == "campLevels" {
      NoLevels();
    }
  }

  lemma MissingIsNone(m: map<string, Json>, key: string)
    requires key !in m && key in {"wood", "food", "iron"}
    ensures DecodeResources(Obj(m)) == DecodeResources(Obj(m[key := Num(0)]))
  {
  }

  lemma EmptyAccount()
    ensures DecodeAccount(Obj(map[])) == Some(Account("", "", NO_RESOURCES, map[]))
    ensures forall m: map<string, Json> | "accounts" !in m :: Decode(Obj(m)) == Some(map[])
  {
  }

  // What makes a tree unreadable: a value of another type, and nothing else.
  predicate BadText(m: map<string, Json>, key: string) {
    key in m && !m[key].Str?
  }

  predicate BadNumber(m: map<string, Json>, key: string) {
    key in m && !m[key].Num?
  }

  predicate BadAccount(j: Json) {
    || !j.Obj?
    || BadText(j.m, "password") || BadText(j.m, "uuid")
    || ("resources" in j.m
        && (|| !j.m["resources"].Obj?
            || BadNumber(j.m["resources"].m, "wood") || BadNumber(j.m["resources"].m, "food")
            || BadNumber(j.m["resources"].m, "iron")))
    || ("campLevels" in j.m
        && (|| j.m["campLevels"].Str?
            || (j.m["campLevels"].Obj? && exists c | c in j.m["campLevels"].m :: BadNumber(j.m["campLevels"].m, c))))
  }

  lemma UnreadableIff(top: Json)
    ensures Decode(top).None?
            <==> || !top.Obj?
                 || ("accounts" in top.m
                     && (|| !top.m["accounts"].Obj?
                         || exists u | u in top.m["accounts"].m :: BadAccount(top.m["accounts"].m[u])))
  {
    hide DecodeAccount, BadAccount;
    if top.Obj? && "accounts" in top.m && top.m["accounts"].Obj? {
      var m := top.m["accounts"].m;
      forall u | u in m ensures DecodeAccount(m[u]).None? <==> BadAccount(m[u]) {
        UnreadableAccount(m[u]);
      }
    }
  }

  lemma UnreadableAccount(j: Json)
    ensures DecodeAccount(j).None? <==> BadAccount(j)
  {
  }

  // A save writes these members and no others.
  lemma SavedMembers(t: Table, u: string)
    requires u in t
    ensures var top := Encode(t);
            && top.Obj? && top.m.Keys == {"accounts"} && top.m["accounts"].Obj? && top.m["accounts"].m.Keys == t.Keys
            && var a := top.m["accounts"].m[u];
               && a.Obj? && a.m.Keys == {"password", "uuid", "resources", "campLevels"}
               && a.m["resources"].Obj? && a.m["resources"].m.Keys == {"wood", "food", "iron"}
               && a.m["campLevels"].Obj? && a.m["campLevels"].m.Keys == t[u].campLevels.Keys
  {
  }

  // ----------------------------------------------------------------------- disk

  // Partial: opened for writing, or not JSON for another reason.
  datatype File = Absent | Partial | Whole(tree: Json)
  datatype Disk = Disk(file: File, temp: File)

  // None stands for the parse or type exception that ends the constructor.
  function Load(disk: Disk): Option<Table> {
    match disk.file
    case Absent => Some(map[])
    case Partial => None
    case Whole(tree) => Decode(tree)
  }

  // The disk after each step of save: temp file opened, temp file complete, renamed.
  function SaveSteps(disk: Disk, tree: Json): seq<Disk> {
    [disk, Disk(disk.file, Partial), Disk(disk.file, Whole(tree)), Disk(Whole(tree), Absent)]
  }

  // -------------------------------------------------------------------- database

  // The table, the order an unordered_map iterates over it, the files, and
  // every table the main file has held so far (a history variable).
  datatype Db = Db(accounts: Table, order: seq<string>, disk: Disk, history: seq<Table>)

  ghost predicate IsOrder(order: seq<string>, keys: set<string>) {
    && (forall i, j | 0 <= i < j < |order| :: order[i] != order[j])
    && (forall k :: k in order <==> k in keys)
  }

  function Saved(db: Db): Db {
    db.(disk := Disk(Whole(Encode(db.accounts)), Absent), history := db.history + [db.accounts])
  }

  // The first account in iteration order with this uuid.
  function Owner(t: Table, order: seq<string>, uuid: string): (r: Option<string>)
    requires forall u | u in order :: u in t
    ensures r.Some? ==> r.value in t && t[r.value].uuid == uuid
    ensures r.None? ==> forall u | u in order :: t[u].uuid != uuid
  {
    if order == [] then None
    else if t[order[0]].uuid == uuid then Some(order[0])
    else Owner(t, order[1..], uuid)
  }

  ghost predicate Coherent(db: Db) {
    IsOrder(db.order, db.accounts.Keys)
  }

  function GetUser(t: Table, user: string, password: string): Option<string> {
    if user in t && t[user].password == password then Some(t[user].uuid) else None
  }

  function GetResources(db: Db, uuid: string): Option<Resources>
    requires Coherent(db)
  {
    var u := Owner(db.accounts, db.order, uuid);
    if u.None? then None else Some(db.accounts[u.value].resources)
  }

  function GetCampLevels(db: Db, uuid: string): Option<map<string, int>>
    requires Coherent(db)
  {
    var u := Owner(db.accounts, db.order, uuid);
    if u.None? then None else Some(db.accounts[u.value].campLevels)
  }

  // None stands for "UUID not found", with nothing changed.
  function UpdateResources(db: Db, uuid: string, r: Resources): Option<Db>
    requires Coherent(db)
  {
    var u := Owner(db.accounts, db.order, uuid);
    if u.None? then None
    else Some(Saved(db.(accounts := db.accounts[u.value := db.accounts[u.value].(resources := r)])))
  }

  function SetCampLevel(db: Db, uuid: string, camp: string, level: int): Option<Db>
    requires Coherent(db)
  {
    var u := Owner(db.accounts, db.order, uuid);
    if u.None? then None
    else
      var a := db.accounts[u.value];
      Some(Saved(db.(accounts := db.accounts[u.value := a.(campLevels := a.campLevels[camp := level])])))
  }

  // None stands for "User already exists". rehash: the iteration order afterwards.
  function AddUser(db: Db, user: string, password: string, uuid: string, rehash: seq<string>): Option<Db> {
    if user in db.accounts then None
    else Some(Saved(db.(accounts := db.accounts[user := Account(password, uuid, NO_RESOURCES, map[])],
                        order := rehash)))
  }

  // A new process opens the files. The history goes on.
  function Boot(disk: Disk, order: seq<string>, history: seq<Table>): Option<Db> {
    var t := Load(disk);
    if t.None? then None else Some(Db(t.value, order, disk, history))
  }

  // ------------------------------------------------------------------ invariants

  predicate UniqueUuids(t: Table) {
    forall u, v | u in t && v in t && t[u].uuid == t[v].uuid && t[u].uuid != "" :: u == v
  }

  // Every account of a is still there in b, with its password and its uuid.
  predicate Kept(a: Table, b: Table) {
    forall u | u in a :: u in b && b[u].password == a[u].password && b[u].uuid == a[u].uuid
  }

  predicate Chain(h: seq<Table>) {
    forall i | 0 < i < |h| :: Kept(h[i - 1], h[i])
  }

  // What every operation and every restart keeps: memory is what the file
  // decodes to, which is the last entry of a history that only adds accounts.
  ghost predicate Sound(db: Db) {
    && Coherent(db)
    && Typed(db.accounts)
    && UniqueUuids(db.accounts)
    && Load(db.disk) == Some(db.accounts)
    && db.history != [] && db.history[|db.history| - 1] == db.accounts
    && Chain(db.history)
  }

  predicate Fresh(t: Table, uuid: string) {
    forall u | u in t :: t[u].uuid != uuid
  }

  lemma {:induction false} ChainKept(h: seq<Table>, i: nat, j: nat)
    requires Chain(h) && i <= j < |h|
    ensures Kept(h[i], h[j])
    decreases j
  {
    if i < j {
      ChainKept(h, i, j - 1);
      assert Kept(h[j - 1], h[j]);
    }
  }

  // Saving a table that keeps every account keeps the database sound.
  lemma SavedSound(db: Db, next: Db)
    requires Sound(db) && Coherent(next) && next.history == db.history
    requires Typed(next.accounts) && UniqueUuids(next.accounts) && Kept(db.accounts, next.accounts)
    ensures Sound(Saved(next))
  {
    hide Decode, Encode, Kept, Typed, UniqueUuids, IsOrder;
    SaveLoadRoundTrip(next.accounts);
    ChainSnoc(db.history, next.accounts);
  }

  lemma ChainSnoc(h: seq<Table>, t: Table)
    requires Chain(h) && h != [] && Kept(h[|h| - 1], t)
    ensures Chain(h + [t])
  {
    hide Kept;
  }

  lemma UpdateResourcesSound(db: Db, uuid: string, r: Resources)
    requires Sound(db) && TypedResources(r) && UpdateResources(db, uuid, r).Some?
    ensures Sound(UpdateResources(db, uuid, r).value)
  {
    var u := Owner(db.accounts, db.order, uuid).value;
    SavedSound(db, db.(accounts := db.accounts[u := db.accounts[u].(resources := r)]));
  }

  lemma SetCampLevelSound(db: Db, uuid: string, camp: string, level: int)
    requires Sound(db) && -I32_HALF <= level < I32_HALF && SetCampLevel(db, uuid, camp, level).Some?
    ensures Sound(SetCampLevel(db, uuid, camp, level).value)
  {
    var u := Owner(db.accounts, db.order, uuid).value;
    var a := db.accounts[u];
    SavedSound(db, db.(accounts := db.accounts[u := a.(campLevels := a.campLevels[camp := level])]));
  }

  lemma AddUserSound(db: Db, user: string, password: string, uuid: string, rehash: seq<string>)
    requires Sound(db) && user !in db.accounts && Fresh(db.accounts, uuid)
    requires IsOrder(rehash, db.accounts.Keys + {user})
    ensures Sound(AddUser(db, user, password, uuid, rehash).value)
  {
    var t := db.accounts[user := Account(password, uuid, NO_RESOURCES, map[])];
    assert t.Keys == db.accounts.Keys + {user};
    SavedSound(db, db.(accounts := t, order := rehash));
  }

  // A restart gives back exactly the table that was in memory.
  lemma BootSound(db: Db, order: seq<string>)
    requires Sound(db) && IsOrder(order, db.accounts.Keys)
    ensures Boot(db.disk, order, db.history).Some?
    ensures Boot(db.disk, order, db.history).value == db.(order := order)
    ensures Sound(Boot(db.disk, order, db.history).value)
  {
  }

  // A crash at any step of the save that ends an operation, whatever an older
  // crash left in the temp file, loads the table from before or from after it.
  lemma CrashDuringSave(db: Db, next: Db, stale: File, step: nat)
    requires Sound(db) && Sound(next) && step < |SaveSteps(db.disk, Encode(next.accounts))|
    ensures Load(SaveSteps(db.disk.(temp := stale), Encode(next.accounts))[step])
            == Some(if step == 3 then next.accounts else db.accounts)
  {
    SaveLoadRoundTrip(next.accounts);
  }

  // With distinct uuids the scan finds the one owner, in any iteration order.
  lemma {:induction false} OwnerFound(t: Table, order: seq<string>, u: string)
    requires forall v | v in order :: v in t
    requires u in order && UniqueUuids(t) && t[u].uuid != ""
    ensures Owner(t, order, t[u].uuid) == Some(u)
  {
    if order[0] != u {
      OwnerFound(t, order[1..], u);
    }
  }

  // Reading and writing by uuid reach the one owner's row.
  lemma OwnerRow(db: Db, u: string, r: Resources)
    requires Coherent(db) && UniqueUuids(db.accounts) && u in db.accounts && db.accounts[u].uuid != ""
    ensures GetResources(db, db.accounts[u].uuid) == Some(db.accounts[u].resources)
    ensures UpdateResources(db, db.accounts[u].uuid, r)
            == Some(Saved(db.(accounts := db.accounts[u := db.accounts[u].(resources := r)])))
  {
    OwnerFound(db.accounts, db.order, u);
  }

  // With the same uuid more than once, the first in iteration order is found.
  lemma {:induction false} OwnerIsFirst(t: Table, order: seq<string>, i: nat)
    requires (forall u | u in order :: u in t) && i < |order|
    requires forall j | 0 <= j < i :: t[order[j]].uuid != t[order[i]].uuid
    ensures Owner(t, order, t[order[i]].uuid) == Some(order[i])
  {
    if i > 0 {
      assert t[order[0]].uuid != t[order[i]].uuid;
      OwnerIsFirst(t, order[1..], i - 1);
    }
  }

  // Setting one camp's level of an account leaves its other camps, everything
  // else it has, and every other account as they were.
  lemma CampLevelSet(db: Db, u: string, camp: string, level: int)
    requires Coherent(db) && UniqueUuids(db.accounts) && u in db.accounts && db.accounts[u].uuid != ""
    ensures var uuid, next := db.accounts[u].uuid, SetCampLevel(db, db.accounts[u].uuid, camp, level);
            && next.Some? && Coherent(next.value) && next.value.accounts.Keys == db.accounts.Keys
            && (forall v | v in db.accounts && v != u :: next.value.accounts[v] == db.accounts[v])
            && next.value.accounts[u].(campLevels := db.accounts[u].campLevels) == db.accounts[u]
            && GetCampLevels(db, uuid) == Some(db.accounts[u].campLevels)
            && GetCampLevels(next.value, uuid) == Some(next.value.accounts[u].campLevels)
    ensures var levels := db.accounts[u].campLevels;
            var now := SetCampLevel(db, db.accounts[u].uuid, camp, level).value.accounts[u].campLevels;
            && now.Keys == levels.Keys + {camp} && now[camp] == level
            && forall c | c in levels && c != camp :: now[c] == levels[c]
  {
    OwnerFound(db.accounts, db.order, u);
    var next := SetCampLevel(db, db.accounts[u].uuid, camp, level).value;
    assert next.accounts.Keys == db.accounts.Keys;
    OwnerFound(next.accounts, next.order, u);
  }

  lemma OrderIrrelevant(db: Db, order: seq<string>, uuid: string, r: Resources)
    requires Coherent(db) && UniqueUuids(db.accounts) && uuid != "" && IsOrder(order, db.accounts.Keys)
    ensures GetResources(db, uuid) == GetResources(db.(order := order), uuid)
    ensures UpdateResources(db, uuid, r).Some? == UpdateResources(db.(order := order), uuid, r).Some?
    ensures UpdateResources(db, uuid, r).Some? ==>
              UpdateResources(db, uuid, r).value.accounts
              == UpdateResources(db.(order := order), uuid, r).value.accounts
  {
    var u := Owner(db.accounts, db.order, uuid);
    if u.Some? {
      OwnerFound(db.accounts, db.order, u.value);
      OwnerFound(db.accounts, order, u.value);
    }
  }
}
