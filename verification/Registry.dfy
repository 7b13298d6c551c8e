/** The vendor registry of `src/gateway/vendors/registry.py`: configs replaced by reloads that are
    suspended at their query, and adapters built lazily and cached in between. */
module Registry {
  import opened Wrappers

  /** A value in an `auth_config` document: a text, or the header table of the custom adapter. */
  datatype ConfigValue = Text(text: string) | Headers(refs: map<string, string>)

  type AuthConfig = map<string, ConfigValue>

  /** A row of the vendor table. */
  datatype Vendor = Vendor(id: string, name: string, slug: string, baseUrl: string, authType: string, authConfig: AuthConfig,
                           cacheTtlSeconds: int, rateLimitRpm: int, isActive: bool)

  datatype VendorConfig = VendorConfig(id: string, name: string, slug: string, baseUrl: string, authType: string, authConfig: AuthConfig,
                                       cacheTtlSeconds: int, rateLimitRpm: int, isActive: bool)

  /** An adapter object; the serial number tells objects built from equal configs apart. */
  datatype Adapter = Adapter(serial: nat, authType: string, authConfig: AuthConfig)

  type Vendors = map<string, VendorConfig>
  type Adapters = map<string, Adapter>

  /** What a lookup gives its caller; it raises when the adapter cannot be built. */
  datatype Found = Missing | Raised | Found(adapter: Adapter)

  /** Python's truth value of a looked-up config value. */
  predicate Given(config: AuthConfig, name: string) {
    name in config && match config[name]
                      case Text(text) => text != ""
                      case Headers(refs) => refs != map[]
  }

  /** `build_adapter` returns: the auth type is known and its adapter finds what it requires. */
  predicate Builds(authType: string, config: AuthConfig) {
    if authType == "api_key" then
      "key_reference" in config && (Given(config, "header_name") || Given(config, "query_param"))
    else if authType == "oauth2" then
      "token_url" in config && "client_id_ref" in config && "client_secret_ref" in config
    else if authType == "basic" then "username_ref" in config && "password_ref" in config
    else if authType == "custom" then Given(config, "headers")
    else authType == "none"
  }

  function ConfigOf(v: Vendor): VendorConfig {
    VendorConfig(v.id, v.name, v.slug, v.baseUrl, v.authType, v.authConfig, v.cacheTtlSeconds, v.rateLimitRpm, v.isActive)
  }

  /** SELECT … WHERE is_active. */
  function Active(table: seq<Vendor>): seq<Vendor> {
    if table == [] then []
    else Active(table[..|table| - 1]) + if table[|table| - 1].isActive then [table[|table| - 1]] else []
  }

  /** The configs of some rows by slug; a later row with the same slug wins. */
  function Configs(rows: seq<Vendor>): Vendors {
    if rows == [] then map[]
    else Configs(rows[..|rows| - 1])[rows[|rows| - 1].slug := ConfigOf(rows[|rows| - 1])]
  }

  /** Adapters exist only for vendors there are, each built from its vendor's current config. */
  ghost predicate Coherent(vendors: Vendors, adapters: Adapters, built: nat) {
    && adapters.Keys <= vendors.Keys
    && (forall slug :: slug in vendors ==> vendors[slug].slug == slug)
    && (forall slug :: slug in adapters ==>
          var a := adapters[slug];
          a.authType == vendors[slug].authType && a.authConfig == vendors[slug].authConfig && Builds(a.authType, a.authConfig) && a.serial < built)
    && (forall s, t :: s in adapters && t in adapters && adapters[s].serial == adapters[t].serial ==> s == t)
  }

  predicate UniqueIds(vendors: Vendors) {
    forall s, t :: s in vendors && t in vendors && vendors[s].id == vendors[t].id ==> s == t
  }

  predicate Holds(vendors: Vendors, slug: string, id: string) {
    slug in vendors && vendors[slug].id == id
  }

  /** What `get_adapter` finds, the adapter table it leaves, and the number of adapters built. */
  function Fetch(vendors: Vendors, adapters: Adapters, built: nat, slug: string): (Found, Adapters, nat) {
    if slug !in vendors then (Missing, adapters, built)
    else if slug in adapters then (Found(adapters[slug]), adapters, built)
    else if !Builds(vendors[slug].authType, vendors[slug].authConfig) then (Raised, adapters, built)
    else
      var a := Adapter(built, vendors[slug].authType, vendors[slug].authConfig);
      (Found(a), adapters[slug := a], built + 1)
  }

  // ----------------------------------------------------------------------------------------
  // Laws
  // ----------------------------------------------------------------------------------------

  /** The row a config was built from. */
  lemma {:induction false} RowOf(rows: seq<Vendor>, slug: string) returns (v: Vendor)
    requires slug in Configs(rows)
    ensures v in rows && v.slug == slug && Configs(rows)[slug] == ConfigOf(v)
  {
    var n := |rows| - 1;
    if slug == rows[n].slug {
      v := rows[n];
    } else {
      v := RowOf(rows[..n], slug);
    }
  }

  lemma {:induction false} RowsHaveConfigs(rows: seq<Vendor>, v: Vendor)
    requires v in rows
    ensures v.slug in Configs(rows)
  {
    var n := |rows| - 1;
    if v != rows[n] {
      assert rows == rows[..n] + [rows[n]];
      RowsHaveConfigs(rows[..n], v);
    }
  }

  /** The table's unique constraints. */
  predicate UniqueRows(table: seq<Vendor>) {
    forall v, w :: v in table && w in table && (v.id == w.id || v.slug == w.slug) ==> v == w
  }

  /** A config says what a row says. */
  predicate Copies(c: VendorConfig, v: Vendor) {
    && c.id == v.id && c.name == v.name && c.slug == v.slug && c.baseUrl == v.baseUrl
    && c.authType == v.authType && c.authConfig == v.authConfig
    && c.cacheTtlSeconds == v.cacheTtlSeconds && c.rateLimitRpm == v.rateLimitRpm && c.isActive == v.isActive
  }

  /** The configs are the active rows of a table, no more and no fewer. */
  ghost predicate Mirrors(vendors: Vendors, table: seq<Vendor>) {
    && (forall v :: v in table && v.isActive ==> v.slug in vendors && Copies(vendors[v.slug], v))
    && (forall slug :: slug in vendors ==> exists v :: v in table && v.isActive && v.slug == slug)
  }

  /** With unique ids and slugs, the configs are exactly those of the active rows. */
  lemma ConfigsAreRows(table: seq<Vendor>)
    requires UniqueRows(table)
    ensures Mirrors(Configs(Active(table)), table)
  {
    var rows := Active(table);
    ActiveRows(table);
    forall v | v in table && v.isActive
      ensures v.slug in Configs(rows) && Copies(Configs(rows)[v.slug], v)
    {
      RowsHaveConfigs(rows, v);
      var w := RowOf(rows, v.slug);
    }
    forall slug | slug in Configs(rows)
      ensures exists v :: v in table && v.isActive && v.slug == slug
    {
      var v := RowOf(rows, slug);
    }
  }

  lemma ConfigsHaveUniqueIds(table: seq<Vendor>)
    requires UniqueRows(table)
    ensures UniqueIds(Configs(Active(table)))
  {
    var rows := Active(table);
    ActiveRows(table);
    forall s, t | s in Configs(rows) && t in Configs(rows) && Configs(rows)[s].id == Configs(rows)[t].id
      ensures s == t
    {
      var v := RowOf(rows, s);
      var w := RowOf(rows, t);
    }
  }

  lemma {:induction false} ActiveRows(table: seq<Vendor>)
    ensures forall v :: v in Active(table) <==> v in table && v.isActive
  {
    if table != [] {
      ActiveRows(table[..|table| - 1]);
      assert table == table[..|table| - 1] + [table[|table| - 1]];
    }
  }

  /** What each kind of adapter requires of its config. */
  lemma AdapterNeeds(authType: string, config: AuthConfig)
    ensures Builds("none", config)
    ensures Builds("basic", config) <==> {"username_ref", "password_ref"} <= config.Keys
    ensures Builds("oauth2", config) <==> {"token_url", "client_id_ref", "client_secret_ref"} <= config.Keys
    ensures Builds("custom", config) <==>
              "headers" in config && config["headers"] != Text("") && config["headers"] != Headers(map[])
    ensures Builds("api_key", config) <==>
              && "key_reference" in config
              && exists name :: name in {"header_name", "query_param"} && name in config
                   && config[name] != Text("") && config[name] != Headers(map[])
    ensures authType !in {"none", "basic", "oauth2", "custom", "api_key"} ==> !Builds(authType, config)
  {
    if Builds("api_key", config) {
      var name := if Given(config, "header_name") then "header_name" else "query_param";
      assert Given(config, name);
    }
  }

  lemma FetchKeepsCoherent(vendors: Vendors, adapters: Adapters, built: nat, slug: string)
    requires Coherent(vendors, adapters, built)
    ensures var (_, after, count) := Fetch(vendors, adapters, built, slug);
            Coherent(vendors, after, count)
  {
  }

  /** A lookup keeps the tables coherent, and a second one returns the same object, builds nothing
      and changes nothing; other vendors' adapters stay what they are. What is found is the adapter
      there was, or a new object, which is then in the table. */
  lemma FetchIsStable(vendors: Vendors, adapters: Adapters, built: nat, slug: string)
    requires Coherent(vendors, adapters, built)
    ensures var (found, after, count) := Fetch(vendors, adapters, built, slug);
            && Coherent(vendors, after, count)
            && Fetch(vendors, after, count, slug) == (found, after, count)
            && (forall other :: other in adapters ==> other in after && after[other] == adapters[other])
            && (forall other :: other in after && other != slug ==> other in adapters)
            && (found.Missing? <==> slug !in vendors)
            && (found.Found? <==> slug in vendors && Builds(vendors[slug].authType, vendors[slug].authConfig))
            && (found.Found? ==> slug in after && found.adapter == after[slug])
            && (found.Found? && slug !in adapters ==> built <= found.adapter.serial)
            && (!found.Found? ==> after == adapters && count == built)
  {
  }

  // ----------------------------------------------------------------------------------------
  // The registry object
  // ----------------------------------------------------------------------------------------

  /** A call of `load`: outside the lock, at its query, back with the rows of one version of the
      table, and at its end, which an exception may have brought about. */
  datatype Load = Waiting | Querying | Fetched(version: nat) | Installed(version: nat) | Abandoned

  predicate Unread(load: Load) {
    load.Waiting? || load.Querying?
  }

  datatype Move =
    | Write(table: seq<Vendor>)
    | Enter
    | Reload(at: real)
    | Resume(load: nat, now: real)
    | Cancel(load: nat)
    | Use(slug: string)
    | UseById(id: string)
    | Evict(only: Option<string>)

  predicate InLock(load: Load) {
    load.Querying? || load.Fetched?
  }

  ghost predicate LoadsFit(loads: seq<Load>, locked: bool, installed: nat, versions: nat) {
    && (locked <==> exists i :: 0 <= i < |loads| && InLock(loads[i]))
    && (forall i, j :: 0 <= i < |loads| && 0 <= j < |loads| && InLock(loads[i]) && InLock(loads[j]) ==> i == j)
    && (forall i :: 0 <= i < |loads| && loads[i].Fetched? ==> installed <= loads[i].version < versions)
    && (forall i :: 0 <= i < |loads| && loads[i].Installed? ==> loads[i].version <= installed)
  }

  /** Every load that had not read the table when that had `versions` versions, or came later, has
      read, unless an exception ended it, a version no older than the last of these. */
  ghost predicate Fresher(before: seq<Load>, versions: nat, after: seq<Load>) {
    && |before| <= |after|
    && (forall i :: 0 <= i < |before| && !Unread(before[i]) ==> KeepsVersion(before[i], after[i]))
    && (forall i :: 0 <= i < |after| && (i < |before| ==> Unread(before[i])) && !Unread(after[i]) && !after[i].Abandoned? ==>
          versions <= after[i].version + 1)
  }

  predicate KeepsVersion(before: Load, after: Load)
    requires !Unread(before)
  {
    after.Abandoned? || (!Unread(after) && !before.Abandoned? && after.version == before.version)
  }

  /** The loop of `load` over the rows. */
  method BuildConfigs(rows: seq<Vendor>) returns (configs: Vendors)
    ensures configs == Configs(rows)
  {
    configs := map[];
    for n := 0 to |rows|
      invariant configs == Configs(rows[..n])
    {
      ghost var m := n + 1;
      assert rows[..m][..n] == rows[..n];
      configs := configs[rows[n].slug := ConfigOf(rows[n])];
    }
    assert rows[..|rows|] == rows;
  }

  class VendorRegistry {
    const refreshInterval: real
    var vendors: Vendors
    var adapters: Adapters
    var lastLoaded: real
    var locked: bool
    /** How many adapters were built. */
    var built: nat
    /** All versions of the vendor table so far, the first one empty, and the one installed. */
    var tables: seq<seq<Vendor>>
    var installed: nat
    var loads: seq<Load>

    /** The tables are coherent; the configs are those of one version of the vendor table; and a
        load that holds the lock is alone and has no older version in its hands. */
    ghost predicate Valid()
      reads this
    {
      && Coherent(vendors, adapters, built)
      && installed < |tables| && vendors == Configs(Active(tables[installed]))
      && LoadsFit(loads, locked, installed, |tables|)
    }

    constructor (interval: real)
      ensures Valid() && vendors == map[] && adapters == map[] && refreshInterval == interval
      ensures lastLoaded == 0.0 && loads == [] && tables == [[]]
    {
      refreshInterval := interval;
      vendors, adapters, lastLoaded, locked, built := map[], map[], 0.0, false, 0;
      tables, installed, loads := [[]], 0, [];
    }

    predicate IsStale(now: real)
      reads this
    {
      now - lastLoaded > refreshInterval
    }

    /** Another request commits a new version of the vendor table. */
    method Commit(table: seq<Vendor>)
      requires Valid()
      modifies this`tables
      ensures Valid() && tables == old(tables) + [table]
    {
      tables := tables + [table];
    }

    /** A call of `load` arrives. */
    method StartLoad()
      requires Valid()
      modifies this`loads
      ensures Valid() && loads == old(loads) + [Waiting]
    {
      loads := loads + [Waiting];
      assert forall i :: 0 <= i < |old(loads)| ==> loads[i] == old(loads)[i];
    }

    /** `reload_if_stale`. */
    method ReloadIfStale(now: real)
      requires Valid()
      modifies this`loads
      ensures Valid() && loads == if now - lastLoaded > refreshInterval then old(loads) + [Waiting] else old(loads)
    {
      if IsStale(now) {
        StartLoad();
      }
    }

    /** `load` after its query. */
    method Install(i: nat, now: real)
      requires Valid() && i < |loads| && loads[i].Fetched?
      modifies this
      ensures Valid() && tables == old(tables) && built == old(built)
      ensures loads == old(loads)[i := Installed(old(loads)[i].version)]
      ensures installed == old(loads)[i].version && adapters == map[] && lastLoaded == now && !locked
      ensures UniqueRows(tables[installed]) ==> Mirrors(vendors, tables[installed])
    {
      var version := loads[i].version;
      var rows := Active(tables[version]);
      var configs := BuildConfigs(rows);
      InstallingIsCoherent(rows, built);
      if UniqueRows(tables[version]) {
        ConfigsAreRows(tables[version]);
      }
      vendors, adapters, lastLoaded, installed := configs, map[], now, version;
      locked := false;
      loads := loads[i := Installed(version)];
    }

    /** A load goes on: it takes the lock when that is free, its query reads the table as it is now,
        or it installs what the query read: the active rows of that version, no adapters. */
    method ResumeLoad(i: nat, now: real)
      requires Valid() && i < |loads|
      modifies this
      ensures Valid() && tables == old(tables) && built == old(built)
      ensures loads == old(loads)[i := match old(loads)[i]
                                       case Waiting => if old(locked) then Waiting else Querying
                                       case Querying => Fetched(|tables| - 1)
                                       case Fetched(version) => Installed(version)
                                       case other => other]
      ensures loads[i].Querying? ==> locked
      ensures old(loads)[i].Fetched? ==>
                && var version := old(loads)[i].version;
                && old(installed) <= version == installed && adapters == map[] && lastLoaded == now && !locked
                && (UniqueRows(tables[version]) ==> Mirrors(vendors, tables[version]))
      ensures !old(loads)[i].Fetched? ==>
                && vendors == old(vendors) && adapters == old(adapters) && installed == old(installed)
                && lastLoaded == old(lastLoaded)
    {
      match loads[i] {
        case Waiting =>
          if !locked {
            locked := true;
            loads := loads[i := Querying];
            assert InLock(loads[i]);
          }
        case Querying =>
          loads := loads[i := Fetched(|tables| - 1)];
          assert InLock(loads[i]);
        case Fetched(version) => Install(i, now);
        case _ =>
      }
    }

    /** An exception at the current `await` of a load; the lock is released. */
    method CancelLoad(i: nat)
      requires Valid() && i < |loads|
      modifies this`loads, this`locked
      ensures Valid()
      ensures loads == old(loads)[i := if old(loads)[i].Installed? then old(loads)[i] else Abandoned]
      ensures locked == (old(locked) && !InLock(old(loads)[i]))
    {
      if loads[i].Installed? {
        return;
      }
      if InLock(loads[i]) {
        locked := false;
      }
      loads := loads[i := Abandoned];
      if locked {
        ghost var j :| 0 <= j < |old(loads)| && InLock(old(loads)[j]);
        assert InLock(loads[j]);
      }
    }

    /** `get`. */
    method Get(slug: string) returns (config: Option<VendorConfig>)
      ensures config == if slug in vendors then Some(vendors[slug]) else None
    {
      config := if slug in vendors then Some(vendors[slug]) else None;
    }

    /** `get_adapter`. */
    method GetAdapter(slug: string) returns (found: Found)
      requires Valid()
      modifies this`adapters, this`built
      ensures Valid() && (found, adapters, built) == Fetch(vendors, old(adapters), old(built), slug)
    {
      FetchKeepsCoherent(vendors, adapters, built, slug);
      if slug !in vendors {
        return Missing;
      }
      if slug !in adapters {
        var config := vendors[slug];
        if !Builds(config.authType, config.authConfig) {
          return Raised;
        }
        adapters := adapters[slug := Adapter(built, config.authType, config.authConfig)];
        built := built + 1;
      }
      return Found(adapters[slug]);
    }

    /** `get_by_id`: a loop over the configs, in any order. */
    method GetById(id: string) returns (config: Option<VendorConfig>)
      requires Valid()
      ensures config.Some? ==> config.value.id == id && config.value.slug in vendors && vendors[config.value.slug] == config.value
      ensures config.None? <==> forall slug :: slug in vendors ==> vendors[slug].id != id
    {
      var slugs := vendors.Keys;
      while slugs != {}
        invariant slugs <= vendors.Keys
        invariant forall slug :: slug in vendors.Keys - slugs ==> vendors[slug].id != id
      {
        var slug :| slug in slugs;
        if vendors[slug].id == id {
          return Some(vendors[slug]);
        }
        slugs := slugs - {slug};
      }
      return None;
    }

    /** `get_adapter_by_id`: what `get_adapter` gives for the vendor that has the id. */
    method GetAdapterById(id: string) returns (found: Found)
      requires Valid()
      modifies this`adapters, this`built
      ensures Valid()
      ensures forall slug :: UniqueIds(vendors) && Holds(vendors, slug, id) ==>
                (found, adapters, built) == Fetch(vendors, old(adapters), old(built), slug)
      ensures (forall slug :: !Holds(vendors, slug, id)) ==> found == Missing && adapters == old(adapters)
    {
      var config := GetById(id);
      if config.None? {
        return Missing;
      }
      assert Holds(vendors, config.value.slug, id);
      found := GetAdapter(config.value.slug);
    }

    /** `invalidate`. */
    method Invalidate(slug: Option<string>)
      requires Valid()
      modifies this`adapters, this`lastLoaded
      ensures Valid() && lastLoaded == 0.0
      ensures adapters == if slug.None? then map[] else old(adapters) - {slug.value}
    {
      adapters := if slug.None? then map[] else adapters - {slug.value};
      lastLoaded := 0.0;
    }

    /** Any interleaving of table writes, loads, lookups and evictions. The tables stay coherent; no
        load replaces the configs by those of an older version of the vendor table; a load whose
        query had not been answered before, once it is through, has left configs no older than the
        table was then; and the configs are the active rows of the version installed. */
    method Serve(moves: seq<Move>)
      requires Valid()
      modifies this
      ensures Valid() && old(installed) <= installed < |tables| && old(tables) <= tables
      ensures forall i :: 0 <= i < |loads| && loads[i].Installed? && (i < |old(loads)| ==> Unread(old(loads)[i])) ==>
                |old(tables)| - 1 <= loads[i].version <= installed
      ensures UniqueRows(tables[installed]) ==> Mirrors(vendors, tables[installed])
    {
      for n := 0 to |moves|
        invariant Valid() && old(installed) <= installed && old(tables) <= tables
        invariant Fresher(old(loads), |old(tables)|, loads)
      {
        ghost var before, mid, k := old(loads), loads, |tables|;
        Step(moves[n]);
        FresherStill(before, |old(tables)|, mid, k, loads);
      }
      if UniqueRows(tables[installed]) {
        ConfigsAreRows(tables[installed]);
      }
    }

    method Step(m: Move)
      requires Valid()
      modifies this
      ensures Valid() && old(installed) <= installed && old(tables) <= tables
      ensures Fresher(old(loads), |old(tables)|, loads)
    {
      match m {
        case Write(table) => Commit(table);
        case Enter => StartLoad();
        case Reload(at) => ReloadIfStale(at);
        case Resume(load, now) => if load < |loads| { ResumeLoad(load, now); }
        case Cancel(load) => if load < |loads| { CancelLoad(load); }
        case Use(slug) => var _ := GetAdapter(slug);
        case UseById(id) => var _ := GetAdapterById(id);
        case Evict(only) => Invalidate(only);
      }
    }
  }

  lemma FresherStill(before: seq<Load>, versions: nat, mid: seq<Load>, later: nat, after: seq<Load>)
    requires Fresher(before, versions, mid) && versions <= later && Fresher(mid, later, after)
    ensures Fresher(before, versions, after)
  {
  }

  lemma InstallingIsCoherent(rows: seq<Vendor>, built: nat)
    ensures Coherent(Configs(rows), map[], built)
  {
    forall slug | slug in Configs(rows)
      ensures Configs(rows)[slug].slug == slug
    {
      var _ := RowOf(rows, slug);
    }
  }
}
