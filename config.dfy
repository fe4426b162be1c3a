/**
 * The routing configuration of DnsDirector and its reload.
 *
 * File reading and YAML deserialisation are outside the model: `UpdateConfig`
 * receives what the deserialiser produced (`Parsed(data)`) or the fact that it
 * threw (`Unreadable`), and `IPAddress.Parse` is the partial function `parse`.
 */
module DnsConfig {
  import opened Common

  /** The six public resolvers, in the order of the source's constant list. */
  const PublicDnsServers: seq<Addr> := [
    Addr([4, 2, 2, 4]),   // Level 3
    Addr([8, 8, 4, 4]),   // Google
    Addr([4, 2, 2, 3]),   // Level 3
    Addr([4, 2, 2, 2]),   // Level 3
    Addr([8, 8, 8, 8]),   // Google
    Addr([4, 2, 2, 1])    // Level 3
  ]

  /** One entry of the `Routes` dictionary; a YAML null list is `None`. */
  datatype RouteEntry = RouteEntry(key: string, servers: Option<seq<string>>)

  /** The deserialised file. `None` stands for a YAML null. */
  datatype ConfigData = ConfigData(
    UsePublicDefaultServers: bool,
    DefaultServers: Option<seq<string>>,
    Routes: Option<seq<RouteEntry>>)

  /** What reading and deserialising the file produced. */
  datatype Loaded = Parsed(data: ConfigData) | Unreadable

  /** The exception a reload raises, by its cause. */
  datatype ConfigError =
    | ReadFailed                   // opening, reading or deserialising the file
    | BadAddress(text: string)     // IPAddress.Parse rejected a string
    | NullRoutes                   // `Routes` missing: dereferencing its keys
    | NullServerList(key: string)  // a route whose server list is null
    | DuplicateKey(key: string)    // Dictionary.Add of a key already present

  /** The values a successful reload computes. */
  datatype Settings = Settings(
    usePublicDefaultServers: bool,
    defaultServers: seq<Addr>,
    routes: map<string, seq<Addr>>)

  /** How a call of `UpdateConfig` ends: normally, or with an exception that
      is logged and swallowed, or with one rethrown to the caller. */
  datatype UpdateOutcome = Updated | Swallowed(error: ConfigError) | Thrown(error: ConfigError)

  /**
   * `ss.Select(s => IPAddress.Parse(s))` enumerated to the end: the parsed
   * addresses in input order, or the first string that does not parse.
   */
  function ParseAll(parse: string -> Option<Addr>, ss: seq<string>): (r: Result<seq<Addr>, ConfigError>)
    ensures r.Success? <==> forall i :: 0 <= i < |ss| ==> parse(ss[i]).Some?
    ensures r.Success? ==> |r.value| == |ss| && forall i :: 0 <= i < |ss| ==> r.value[i] == parse(ss[i]).value
    ensures r.Failure? ==> exists i :: 0 <= i < |ss| && parse(ss[i]).None? && r.error == BadAddress(ss[i])
                                     && forall j :: 0 <= j < i ==> parse(ss[j]).Some?
  {
    if ss == [] then Success([])
    else match parse(ss[0])
      case None => Failure(BadAddress(ss[0]))
      case Some(a) =>
        match ParseAll(parse, ss[1..])
        case Failure(e) =>
          ghost var i :| 0 <= i < |ss[1..]| && parse(ss[1..][i]).None? && e == BadAddress(ss[1..][i])
                         && forall j :: 0 <= j < i ==> parse(ss[1..][j]).Some?;
          assert parse(ss[i + 1]).None? && forall j :: 0 <= j < i + 1 ==> parse(ss[j]).Some?;
          Failure(e)
        case Success(rest) => Success([a] + rest)
  }

  /** One turn of the `foreach` over the route keys: the list must not be
      null, every address must parse, and the lower-cased key must be new. */
  function AddRoute(parse: string -> Option<Addr>, routes: map<string, seq<Addr>>, e: RouteEntry)
    : (r: Result<map<string, seq<Addr>>, ConfigError>)
    ensures e.servers.None? ==> r == Failure(NullServerList(e.key))
    ensures e.servers.Some? && ParseAll(parse, e.servers.value).Failure? ==> r == Failure(ParseAll(parse, e.servers.value).error)
    ensures r.Success? <==> e.servers.Some? && ParseAll(parse, e.servers.value).Success? && Lower(e.key) !in routes
    ensures r.Success? ==> r.value == routes[Lower(e.key) := ParseAll(parse, e.servers.value).value]
    ensures e.servers.Some? && ParseAll(parse, e.servers.value).Success? && Lower(e.key) in routes ==>
      r == Failure(DuplicateKey(Lower(e.key)))
  {
    if e.servers.None? then Failure(NullServerList(e.key))
    else match ParseAll(parse, e.servers.value)
      case Failure(err) => Failure(err)
      case Success(addrs) =>
        var key := Lower(e.key);
        if key in routes then Failure(DuplicateKey(key)) else Success(routes[key := addrs])
  }

  /** The `newRoutes` dictionary after the `foreach` over `entries`: when
      the loop completes, one route per entry. */
  function BuildRoutes(parse: string -> Option<Addr>, entries: seq<RouteEntry>): (r: Result<map<string, seq<Addr>>, ConfigError>)
    ensures r.Success? ==> |r.value| == |entries|
  {
    if entries == [] then Success(map[])
    else match BuildRoutes(parse, entries[..|entries| - 1])
      case Failure(err) => Failure(err)
      case Success(routes) => AddRoute(parse, routes, entries[|entries| - 1])
  }

  /** The default server strings, a null list read as empty. */
  function RawDefaults(data: ConfigData): seq<string> {
    if data.DefaultServers.None? then [] else data.DefaultServers.value
  }

  /** Everything the body of `UpdateConfig`'s `try` computes before it
      assigns a field: the defaults first, then the routes. */
  function Reload(input: Loaded, parse: string -> Option<Addr>): (r: Result<Settings, ConfigError>)
    ensures input.Unreadable? ==> r == Failure(ReadFailed)
    ensures input.Parsed? && input.data.Routes.None? ==> r.Failure? && (r.error == NullRoutes || r.error.BadAddress?)
    ensures input.Parsed? && ParseAll(parse, RawDefaults(input.data)).Failure? ==>
      r == Failure(ParseAll(parse, RawDefaults(input.data)).error)
    ensures input.Parsed? && input.data.Routes.None? && ParseAll(parse, RawDefaults(input.data)).Success? ==>
      r == Failure(NullRoutes)
    ensures r.Success? ==> input.Parsed? && input.data.Routes.Some?
    ensures r.Success? ==> r.value.usePublicDefaultServers == input.data.UsePublicDefaultServers
    ensures r.Success? ==> |r.value.routes| == |input.data.Routes.value|
  {
    match input
    case Unreadable => Failure(ReadFailed)
    case Parsed(data) =>
      match ParseAll(parse, RawDefaults(data))
      case Failure(err) => Failure(err)
      case Success(defaults) =>
        if data.Routes.None? then Failure(NullRoutes)
        else match BuildRoutes(parse, data.Routes.value)
          case Failure(err) => Failure(err)
          case Success(routes) => Success(Settings(data.UsePublicDefaultServers, defaults, routes))
  }

  /** Every route has a non-null list of parsable addresses. */
  ghost predicate ServersParse(parse: string -> Option<Addr>, entries: seq<RouteEntry>) {
    forall i :: 0 <= i < |entries| ==>
      entries[i].servers.Some? && forall j :: 0 <= j < |entries[i].servers.value| ==> parse(entries[i].servers.value[j]).Some?
  }

  /** No two route keys are equal once lower-cased. */
  ghost predicate KeysDistinct(entries: seq<RouteEntry>) {
    forall i, j :: 0 <= i < j < |entries| ==> Lower(entries[i].key) != Lower(entries[j].key)
  }

  /** The map a successful `foreach` builds: one lower-cased key per entry,
      bound to that entry's parsed addresses. */
  ghost predicate RoutesOf(parse: string -> Option<Addr>, entries: seq<RouteEntry>, routes: map<string, seq<Addr>>)
    requires ServersParse(parse, entries)
  {
    && routes.Keys == LoweredKeys(entries)
    && forall i :: 0 <= i < |entries| ==> routes[Lower(entries[i].key)] == ParseAll(parse, entries[i].servers.value).value
  }

  /** The keys a list of route entries names, lower-cased. */
  ghost function LoweredKeys(entries: seq<RouteEntry>): set<string> {
    set i | 0 <= i < |entries| :: Lower(entries[i].key)
  }

  lemma LoweredKeysSnoc(entries: seq<RouteEntry>)
    requires entries != []
    ensures LoweredKeys(entries) == LoweredKeys(entries[..|entries| - 1]) + {Lower(entries[|entries| - 1].key)}
  {
    var n := |entries| - 1;
    forall k | k in LoweredKeys(entries) ensures k in LoweredKeys(entries[..n]) + {Lower(entries[n].key)} {
      var i :| 0 <= i < |entries| && k == Lower(entries[i].key);
      if i < n { assert entries[..n][i] == entries[i]; }
    }
    forall k | k in LoweredKeys(entries[..n]) ensures k in LoweredKeys(entries) {
      var i :| 0 <= i < n && k == Lower(entries[..n][i].key);
      assert entries[..n][i] == entries[i];
    }
  }

  /** A successful route loop saw only non-null lists of parsable addresses. */
  lemma {:induction false} BuildRoutesServers(parse: string -> Option<Addr>, entries: seq<RouteEntry>)
    requires BuildRoutes(parse, entries).Success?
    ensures ServersParse(parse, entries)
  {
    if entries != [] {
      var n := |entries| - 1;
      var prefix := entries[..n];
      assert BuildRoutes(parse, prefix).Success?;
      BuildRoutesServers(parse, prefix);
      forall i | 0 <= i < |entries|
        ensures entries[i].servers.Some?
        ensures forall j :: 0 <= j < |entries[i].servers.value| ==> parse(entries[i].servers.value[j]).Some?
      {
        if i < n { assert entries[i] == prefix[i]; }
      }
    }
  }

  /** A successful route loop saw distinct lower-cased keys and made each one
      a key of the result. */
  lemma {:induction false} BuildRoutesKeys(parse: string -> Option<Addr>, entries: seq<RouteEntry>)
    requires BuildRoutes(parse, entries).Success?
    ensures KeysDistinct(entries)
    ensures BuildRoutes(parse, entries).value.Keys == LoweredKeys(entries)
  {
    if entries != [] {
      var n := |entries| - 1;
      var prefix := entries[..n];
      assert BuildRoutes(parse, prefix).Success?;
      BuildRoutesKeys(parse, prefix);
      var m := BuildRoutes(parse, prefix).value;
      LoweredKeysSnoc(entries);
      forall i, j | 0 <= i < j < |entries| ensures Lower(entries[i].key) != Lower(entries[j].key) {
        assert entries[i] == prefix[i];
        if j == n {
          assert Lower(prefix[i].key) in LoweredKeys(prefix);
        } else {
          assert entries[j] == prefix[j];
        }
      }
    }
  }

  /** A successful route loop bound each lower-cased key to the addresses
      parsed from that entry's list. */
  lemma {:induction false} BuildRoutesValues(parse: string -> Option<Addr>, entries: seq<RouteEntry>)
    requires BuildRoutes(parse, entries).Success?
    ensures ServersParse(parse, entries)
    ensures forall i :: 0 <= i < |entries| ==>
      && Lower(entries[i].key) in BuildRoutes(parse, entries).value
      && BuildRoutes(parse, entries).value[Lower(entries[i].key)] == ParseAll(parse, entries[i].servers.value).value
  {
    BuildRoutesServers(parse, entries);
    BuildRoutesKeys(parse, entries);
    if entries != [] {
      var n := |entries| - 1;
      var prefix := entries[..n];
      assert BuildRoutes(parse, prefix).Success?;
      BuildRoutesValues(parse, prefix);
      var m := BuildRoutes(parse, prefix).value;
      var r := BuildRoutes(parse, entries).value;
      assert r == m[Lower(entries[n].key) := ParseAll(parse, entries[n].servers.value).value];
      forall i | 0 <= i < |entries|
        ensures Lower(entries[i].key) in r && r[Lower(entries[i].key)] == ParseAll(parse, entries[i].servers.value).value
      {
        if i < n {
          assert entries[i] == prefix[i];
          assert Lower(entries[i].key) != Lower(entries[n].key);
        }
      }
    }
  }

  /** A successful route loop saw only parsable lists and distinct keys, and
      built one route per entry. */
  lemma BuildRoutesSound(parse: string -> Option<Addr>, entries: seq<RouteEntry>)
    requires BuildRoutes(parse, entries).Success?
    ensures ServersParse(parse, entries) && KeysDistinct(entries)
    ensures RoutesOf(parse, entries, BuildRoutes(parse, entries).value)
  {
    BuildRoutesKeys(parse, entries);
    BuildRoutesValues(parse, entries);
  }

  /** Parsable lists under distinct keys always make the route loop succeed. */
  lemma {:induction false} BuildRoutesComplete(parse: string -> Option<Addr>, entries: seq<RouteEntry>)
    requires ServersParse(parse, entries) && KeysDistinct(entries)
    ensures BuildRoutes(parse, entries).Success?
  {
    if entries != [] {
      var n := |entries| - 1;
      var prefix := entries[..n];
      var e := entries[n];
      assert forall i :: 0 <= i < n ==> prefix[i] == entries[i];
      assert ServersParse(parse, prefix) && KeysDistinct(prefix);
      BuildRoutesComplete(parse, prefix);
      BuildRoutesSound(parse, prefix);
      var m := BuildRoutes(parse, prefix).value;
      assert ParseAll(parse, e.servers.value).Success?;
      assert Lower(e.key) !in m by {
        assert forall i :: 0 <= i < n ==> Lower(prefix[i].key) != Lower(e.key);
      }
    }
  }

  /** The route loop succeeds exactly when every list parses and no two keys
      collide after lower-casing, and then it builds exactly those routes. */
  lemma BuildRoutesSpec(parse: string -> Option<Addr>, entries: seq<RouteEntry>)
    ensures BuildRoutes(parse, entries).Success? <==> ServersParse(parse, entries) && KeysDistinct(entries)
    ensures BuildRoutes(parse, entries).Success? ==> RoutesOf(parse, entries, BuildRoutes(parse, entries).value)
  {
    if BuildRoutes(parse, entries).Success? {
      BuildRoutesSound(parse, entries);
    } else if ServersParse(parse, entries) && KeysDistinct(entries) {
      BuildRoutesComplete(parse, entries);
    }
  }
  /** A failure in the first `i` routes is the failure of the whole loop. */
  lemma {:induction false} BuildRoutesStopsAtFailure(parse: string -> Option<Addr>, entries: seq<RouteEntry>, i: nat)
    requires i <= |entries|
    requires BuildRoutes(parse, entries[..i]).Failure?
    ensures BuildRoutes(parse, entries) == BuildRoutes(parse, entries[..i])
  {
    if i < |entries| {
      var n := |entries| - 1;
      assert entries[..n][..i] == entries[..i];
      BuildRoutesStopsAtFailure(parse, entries[..n], i);
    } else {
      assert entries[..i] == entries;
    }
  }

  /** The keys of a built route map are all lower-case. */
  lemma BuiltKeysAreLower(parse: string -> Option<Addr>, entries: seq<RouteEntry>)
    requires BuildRoutes(parse, entries).Success?
    ensures forall k :: k in BuildRoutes(parse, entries).value ==> IsLower(k) && Lower(k) == k
  {
    BuildRoutesSpec(parse, entries);
    forall k | k in BuildRoutes(parse, entries).value ensures IsLower(k) && Lower(k) == k {
      var i :| 0 <= i < |entries| && k == Lower(entries[i].key);
      LowerIsLower(entries[i].key);
    }
  }

  /** When a reload succeeds, and what it then computes: the flag as read, a
      null default list read as empty, the defaults parsed in input order,
      and routes keyed by the lower-cased keys. */
  lemma ReloadSpec(input: Loaded, parse: string -> Option<Addr>)
    ensures var r := Reload(input, parse);
      r.Success? <==>
        && input.Parsed?
        && (input.data.DefaultServers.Some? ==>
              forall i :: 0 <= i < |input.data.DefaultServers.value| ==> parse(input.data.DefaultServers.value[i]).Some?)
        && input.data.Routes.Some?
        && ServersParse(parse, input.data.Routes.value)
        && KeysDistinct(input.data.Routes.value)
    ensures var r := Reload(input, parse);
      r.Success? ==>
        && r.value.usePublicDefaultServers == input.data.UsePublicDefaultServers
        && (input.data.DefaultServers.None? ==> r.value.defaultServers == [])
        && (input.data.DefaultServers.Some? ==>
              var raw := input.data.DefaultServers.value;
              |r.value.defaultServers| == |raw| &&
              forall i :: 0 <= i < |raw| ==> r.value.defaultServers[i] == parse(raw[i]).value)
        && RoutesOf(parse, input.data.Routes.value, r.value.routes)
        && forall k :: k in r.value.routes ==> Lower(k) == k
  {
    if input.Parsed? && input.data.Routes.Some? {
      BuildRoutesSpec(parse, input.data.Routes.value);
      if BuildRoutes(parse, input.data.Routes.value).Success? {
        BuiltKeysAreLower(parse, input.data.Routes.value);
      }
    }
  }

  /** Two route keys that differ only in case make the reload fail. */
  lemma DuplicateKeyFails(input: Loaded, parse: string -> Option<Addr>, i: nat, j: nat)
    requires input.Parsed? && input.data.Routes.Some?
    requires i < j < |input.data.Routes.value|
    requires Lower(input.data.Routes.value[i].key) == Lower(input.data.Routes.value[j].key)
    ensures Reload(input, parse).Failure?
  {
    ReloadSpec(input, parse);
  }

  /**
   * The routing configuration. A fresh object holds the initializer values;
   * `UpdateConfig` replaces the flag and the default servers when a reload
   * succeeds and keeps them when it fails (last known good).
   */
  class Config {
    var configured: bool
    var UsePublicDefaultServers: bool
    var DefaultDnsServers: seq<Addr>
    var DnsRoutes: map<string, seq<Addr>>

    /** Until a reload succeeds the object keeps its initial values, and
        every route key is lower-case, so the router can reach it. */
    ghost predicate Valid()
      reads this
    {
      && (!configured ==> !UsePublicDefaultServers && DefaultDnsServers == [] && DnsRoutes == map[])
      && forall k :: k in DnsRoutes ==> Lower(k) == k
    }

    constructor()
      ensures Valid()
      ensures !configured && !UsePublicDefaultServers && DefaultDnsServers == [] && DnsRoutes == map[]
    {
      configured := false;
      UsePublicDefaultServers := false;
      DefaultDnsServers := [];
      DnsRoutes := map[];
    }

    /** The `foreach` that fills `newRoutes`, stopping at the first exception. */
    static method BuildNewRoutes(parse: string -> Option<Addr>, entries: seq<RouteEntry>)
      returns (r: Result<map<string, seq<Addr>>, ConfigError>)
      ensures r == BuildRoutes(parse, entries)
    {
      var newRoutes: map<string, seq<Addr>> := map[];
      var i := 0;
      while i < |entries|
        invariant 0 <= i <= |entries|
        invariant BuildRoutes(parse, entries[..i]) == Success(newRoutes)
      {
        var entry := entries[i];
        assert entries[..i + 1][..i] == entries[..i];
        if entry.servers.None? {
          r := Failure(NullServerList(entry.key));
          BuildRoutesStopsAtFailure(parse, entries, i + 1);
          return;
        }
        var servers := ParseAll(parse, entry.servers.value);
        if servers.Failure? {
          r := Failure(servers.error);
          BuildRoutesStopsAtFailure(parse, entries, i + 1);
          return;
        }
        var key := Lower(entry.key);
        if key in newRoutes {
          r := Failure(DuplicateKey(key));
          BuildRoutesStopsAtFailure(parse, entries, i + 1);
          return;
        }
        newRoutes := newRoutes[key := servers.value];
        i := i + 1;
      }
      assert entries[..i] == entries;
      r := Success(newRoutes);
    }

    /**
     * Reload as the source has it: the routes are built and checked, but
     * `DnsRoutes` is never assigned, so it keeps its previous value.
     */
    method UpdateConfig(input: Loaded, parse: string -> Option<Addr>) returns (outcome: UpdateOutcome)
      requires Valid()
      modifies this
      ensures Valid()
      ensures DnsRoutes == old(DnsRoutes)
      ensures Reload(input, parse).Success? ==>
        && outcome == Updated
        && configured
        && UsePublicDefaultServers == Reload(input, parse).value.usePublicDefaultServers
        && DefaultDnsServers == Reload(input, parse).value.defaultServers
      ensures Reload(input, parse).Failure? ==>
        && outcome == (if old(configured) then Swallowed(Reload(input, parse).error) else Thrown(Reload(input, parse).error))
        && configured == old(configured)
        && UsePublicDefaultServers == old(UsePublicDefaultServers)
        && DefaultDnsServers == old(DefaultDnsServers)
    {
      var loaded := Load(input, parse);
      match loaded
      case Failure(err) =>
        outcome := if configured then Swallowed(err) else Thrown(err);
      case Success(settings) =>
        UsePublicDefaultServers := settings.usePublicDefaultServers;
        DefaultDnsServers := settings.defaultServers;
        configured := true;
        outcome := Updated;
    }

    /**
     * Reload as evidently intended: like `UpdateConfig`, and the built
     * routes replace `DnsRoutes`.
     */
    method UpdateConfigCorrected(input: Loaded, parse: string -> Option<Addr>) returns (outcome: UpdateOutcome)
      requires Valid()
      modifies this
      ensures Valid()
      ensures Reload(input, parse).Success? ==>
        && outcome == Updated
        && configured
        && UsePublicDefaultServers == Reload(input, parse).value.usePublicDefaultServers
        && DefaultDnsServers == Reload(input, parse).value.defaultServers
        && DnsRoutes == Reload(input, parse).value.routes
      ensures Reload(input, parse).Failure? ==>
        && outcome == (if old(configured) then Swallowed(Reload(input, parse).error) else Thrown(Reload(input, parse).error))
        && configured == old(configured)
        && UsePublicDefaultServers == old(UsePublicDefaultServers)
        && DefaultDnsServers == old(DefaultDnsServers)
        && DnsRoutes == old(DnsRoutes)
    {
      var loaded := Load(input, parse);
      match loaded
      case Failure(err) =>
        outcome := if configured then Swallowed(err) else Thrown(err);
      case Success(settings) =>
        BuiltKeysAreLower(parse, input.data.Routes.value);
        UsePublicDefaultServers := settings.usePublicDefaultServers;
        DefaultDnsServers := settings.defaultServers;
        DnsRoutes := settings.routes;
        configured := true;
        outcome := Updated;
    }

    /** The statements of the `try` block before the first field assignment. */
    static method Load(input: Loaded, parse: string -> Option<Addr>) returns (r: Result<Settings, ConfigError>)
      ensures r == Reload(input, parse)
    {
      if input.Unreadable? {
        return Failure(ReadFailed);
      }
      var data := input.data;
      var raw := if data.DefaultServers.None? then [] else data.DefaultServers.value;
      var newDefaultServers := ParseAll(parse, raw);
      if newDefaultServers.Failure? {
        return Failure(newDefaultServers.error);
      }
      if data.Routes.None? {
        return Failure(NullRoutes);
      }
      var newRoutes := BuildNewRoutes(parse, data.Routes.value);
      if newRoutes.Failure? {
        return Failure(newRoutes.error);
      }
      r := Success(Settings(data.UsePublicDefaultServers, newDefaultServers.value, newRoutes.value));
    }
  }
}
