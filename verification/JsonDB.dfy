// The account database object: its table, its linear scans and the loops that
// build and read the JSON tree, each proved against Accounts.
module JsonDBs {
  import opened Prelude
  import opened Json
  import opened Text
  import opened Accounts
  import Uuid

  lemma LevelsBuilt(jcl: map<string, Json>, levels: map<string, int>)
    requires jcl.Keys == levels.Keys && forall c | c in jcl :: jcl[c] == Num(levels[c])
    ensures Obj(jcl) == EncodeLevels(levels)
  {
    assert jcl == map c | c in levels :: Num(levels[c]);
  }

  lemma AccountsBuilt(jacc: map<string, Json>, t: Table)
    requires jacc.Keys == t.Keys && forall u | u in jacc :: jacc[u] == EncodeAccount(t[u])
    ensures Obj(jacc) == EncodeAccounts(t)
  {
    assert jacc == map u | u in t :: EncodeAccount(t[u]);
  }

  lemma LevelsRead(levels: map<string, int>, m: map<string, Json>)
    requires levels.Keys == m.Keys && forall c | c in m :: m[c].Num? && levels[c] == ToInt32(m[c].n)
    ensures DecodeLevels(Obj(m)) == Some(levels)
  {
    assert levels == map c | c in m :: ToInt32(m[c].n);
  }

  lemma LevelsBad(m: map<string, Json>, c: string)
    requires c in m && !m[c].Num?
    ensures DecodeLevels(Obj(m)) == None
  {
  }

  // The keys of a std::map or of a JSON object, as a loop over it visits them.
  method Visit(keys: set<string>) returns (ks: seq<string>)
    ensures forall k :: k in ks <==> k in keys
  {
    ks := SortedKeys(keys);
  }

  // The campLevels loop of save().
  method LevelsTree(levels: map<string, int>) returns (val: Json)
    ensures val == EncodeLevels(levels)
  {
    var camps := Visit(levels.Keys);
    var jcl: map<string, Json> := map[];
    for i := 0 to |camps|
      invariant jcl.Keys <= levels.Keys && forall j | 0 <= j < i :: camps[j] in jcl
      invariant forall c | c in jcl :: jcl[c] == Num(levels[c])
    {
      jcl := jcl[camps[i] := Num(levels[camps[i]])];
    }
    LevelsBuilt(jcl, levels);
    val := Obj(jcl);
  }

  // val in save(): the tree of one account.
  method TreeOf(a: Account) returns (val: Json)
    ensures val == EncodeAccount(a)
  {
    var jcl := LevelsTree(a.campLevels);
    val := Obj(map["password" := Str(a.password), "uuid" := Str(a.uuid),
                   "resources" := EncodeResources(a.resources), "campLevels" := jcl]);
  }

  // The campLevels loop of load(): None stands for the exception.
  method LevelsOf(m: map<string, Json>) returns (r: Option<map<string, int>>)
    ensures r == DecodeLevels(Obj(m))
  {
    hide DecodeLevels, ToInt32;
    var camps := Visit(m.Keys);
    var levels: map<string, int> := map[];
    for i := 0 to |camps|
      invariant levels.Keys <= m.Keys && forall j | 0 <= j < i :: camps[j] in levels
      invariant forall c | c in levels :: m[c].Num? && levels[c] == ToInt32(m[c].n)
    {
      var v := m[camps[i]];
      if !v.Num? {
        LevelsBad(m, camps[i]);
        return None;
      }
      levels := levels[camps[i] := ToInt32(v.n)];
    }
    LevelsRead(levels, m);
    r := Some(levels);
  }

  // The body of load()'s loop.
  method AccountOf(val: Json) returns (r: Option<Account>)
    ensures r == DecodeAccount(val)
  {
    var password, uuid := TextOr(val, "password", ""), TextOr(val, "uuid", "");
    if password.None? || uuid.None? {
      return None;
    }
    var resources := DecodeResources(if "resources" in val.m then val.m["resources"] else Obj(map[]));
    if resources.None? {
      return None;
    }
    var levels: map<string, int> := map[];
    if "campLevels" in val.m {
      var jcl := val.m["campLevels"];
      var l := DecodeLevels(jcl);
      if jcl.Obj? {
        l := LevelsOf(jcl.m);
      }
      if l.None? {
        return None;
      }
      levels := l.value;
    }
    r := Some(Account(password.value, uuid.value, resources.value, levels));
  }

  // The loop of load() over the accounts member.
  method TableOf(jacc: Json) returns (r: Option<Table>)
    ensures r == DecodeAccounts(jacc)
  {
    hide DecodeAccount;
    if !jacc.Obj? {
      return None;
    }
    var users := Visit(jacc.m.Keys);
    var t: Table := map[];
    for i := 0 to |users|
      invariant t.Keys <= jacc.m.Keys && forall j | 0 <= j < i :: users[j] in t
      invariant forall u | u in t :: DecodeAccount(jacc.m[u]) == Some(t[u])
    {
      var acc := AccountOf(jacc.m[users[i]]);
      if acc.None? {
        return None;
      }
      t := t[users[i] := acc.value];
    }
    DecodeEach(jacc.m, t);
    r := Some(t);
  }

  class JsonDB {
    var m_accounts: Table
    var order: seq<string>       // the order the hash table iterates in
    var disk: Disk               // the account file and its temp file
    ghost var history: seq<Table>

    ghost function View(): Db
      reads this
    {
      Db(m_accounts, order, disk, history)
    }

    constructor (disk: Disk, ghost history: seq<Table>)
      ensures View() == Db(map[], [], disk, history)
    {
      this.disk := disk;
      this.order := [];
      this.m_accounts := map[];
      this.history := history;
    }

    // The constructor of the source, which loads the file and may throw.
    static method Open(disk: Disk, rehash: seq<string>, ghost history: seq<Table>) returns (db: JsonDB?)
      ensures db != null <==> Boot(disk, rehash, history).Some?
      ensures db != null ==> fresh(db) && db.View() == Boot(disk, rehash, history).value
    {
      db := new JsonDB(disk, history);
      if disk.file.Partial? {
        return null;
      }
      if disk.file.Whole? {
        var top := disk.file.tree;
        if !top.Obj? {
          return null;
        }
        var t := TableOf(if "accounts" in top.m then top.m["accounts"] else Obj(map[]));
        if t.None? {
          return null;
        }
        db.m_accounts := t.value;
      }
      db.order := rehash;
    }

    method UserExists(username: string) returns (found: bool)
      ensures found <==> username in View().accounts
    {
      found := username in m_accounts;
    }

    method VerifyUser(username: string, password: string) returns (ok: bool)
      ensures ok <==> username in View().accounts && View().accounts[username].password == password
    {
      ok := username in m_accounts && m_accounts[username].password == password;
    }

    // None stands for "User not found" or "Invalid password".
    method GetUser(username: string, password: string) returns (r: Option<string>)
      ensures r == Accounts.GetUser(View().accounts, username, password)
      ensures r.Some? <==> username in View().accounts && View().accounts[username].password == password
      ensures r.Some? ==> r.value == View().accounts[username].uuid
    {
      if username !in m_accounts {
        return None;
      }
      if m_accounts[username].password != password {
        return None;
      }
      r := Some(m_accounts[username].uuid);
    }

    // The scan the uuid-keyed operations share.
    method Find(uuid: string) returns (r: Option<string>)
      requires Coherent(View())
      ensures r == Owner(m_accounts, order, uuid)
    {
      for i := 0 to |order|
        invariant Owner(m_accounts, order, uuid) == Owner(m_accounts, order[i..], uuid)
      {
        if m_accounts[order[i]].uuid == uuid {
          return Some(order[i]);
        }
        assert order[i..][1..] == order[i + 1..];
      }
      r := None;
    }

    method GetResources(uuid: string) returns (r: Option<Resources>)
      requires Coherent(View())
      ensures r == Accounts.GetResources(View(), uuid)
    {
      var u := Find(uuid);
      r := if u.None? then None else Some(m_accounts[u.value].resources);
    }

    method GetCampLevels(uuid: string) returns (r: Option<map<string, int>>)
      requires Coherent(View())
      ensures r == Accounts.GetCampLevels(View(), uuid)
    {
      var u := Find(uuid);
      r := if u.None? then None else Some(m_accounts[u.value].campLevels);
    }

    // A camp never set has level 0.
    method GetCampLevel(uuid: string, camp: string) returns (r: Option<int>)
      requires Coherent(View())
      ensures r.None? <==> Accounts.GetCampLevels(View(), uuid).None?
      ensures r.Some? ==>
                var levels := Accounts.GetCampLevels(View(), uuid).value;
                r.value == if camp in levels then levels[camp] else 0
    {
      var levels := GetCampLevels(uuid);
      if levels.None? {
        return None;
      }
      r := Some(if camp in levels.value then levels.value[camp] else 0);
    }

    method UpdateResources(uuid: string, r: Resources) returns (ok: bool)
      requires Coherent(View())
      modifies this
      ensures ok <==> Accounts.UpdateResources(old(View()), uuid, r).Some?
      ensures View() == if ok then Accounts.UpdateResources(old(View()), uuid, r).value else old(View())
    {
      var u := Find(uuid);
      if u.None? {
        return false;
      }
      m_accounts := m_accounts[u.value := m_accounts[u.value].(resources := r)];
      ghost var _ := Save();
      ok := true;
    }

    method SetCampLevel(uuid: string, camp: string, level: int) returns (ok: bool)
      requires Coherent(View())
      modifies this
      ensures ok <==> Accounts.SetCampLevel(old(View()), uuid, camp, level).Some?
      ensures View() == if ok then Accounts.SetCampLevel(old(View()), uuid, camp, level).value else old(View())
    {
      var u := Find(uuid);
      if u.None? {
        return false;
      }
      var a := m_accounts[u.value];
      m_accounts := m_accounts[u.value := a.(campLevels := a.campLevels[camp := level])];
      ghost var _ := Save();
      ok := true;
    }

    // a, b: the two random draws of generateUuid.
    method AddUser(username: string, password: string, a: nat, b: nat, rehash: seq<string>)
      returns (r: Option<string>)
      requires Coherent(View())
      requires username !in m_accounts ==> IsOrder(rehash, m_accounts.Keys + {username})
      modifies this
      ensures r == if username in old(m_accounts) then None else Some(Uuid.Format(a, b))
      ensures View() == if r.None? then old(View())
                        else Accounts.AddUser(old(View()), username, password, Uuid.Format(a, b), rehash).value
    {
      if username in m_accounts {
        return None;
      }
      var acc := Account(password, Uuid.Format(a, b), NO_RESOURCES, map[]);
      m_accounts := m_accounts[username := acc];
      order := rehash;
      assert m_accounts.Keys == old(m_accounts).Keys + {username};
      ghost var _ := Save();
      r := Some(acc.uuid);
    }

    // steps: the disk at each moment of the save at which a crash would find it.
    method Save() returns (ghost steps: seq<Disk>)
      requires Coherent(View())
      modifies this`disk, this`history
      ensures View() == Saved(old(View()))
      ensures steps == SaveSteps(old(disk), Encode(m_accounts)) && steps[|steps| - 1] == disk
    {
      steps := [disk];
      var jacc: map<string, Json> := map[];
      for i := 0 to |order|
        invariant disk == old(disk) && history == old(history) && steps == [disk]
        invariant jacc.Keys <= m_accounts.Keys && forall j | 0 <= j < i :: order[j] in jacc
        invariant forall u | u in jacc :: jacc[u] == EncodeAccount(m_accounts[u])
      {
        var val := TreeOf(m_accounts[order[i]]);
        jacc := jacc[order[i] := val];
      }
      AccountsBuilt(jacc, m_accounts);
      var top := Obj(map["accounts" := Obj(jacc)]);
      disk := disk.(temp := Partial);
      steps := steps + [disk];
      disk := disk.(temp := Whole(top));
      steps := steps + [disk];
      disk := Disk(disk.temp, Absent);
      steps := steps + [disk];
      history := history + [m_accounts];
    }
  }
}
