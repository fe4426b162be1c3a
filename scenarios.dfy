/**
 * Concrete scenarios of the router and the configuration reload: a longest
 * match, a partial label, a mixed-case name with a root dot, and the effect
 * of `UpdateConfig` never storing the routes it builds.
 *
 * Each lemma takes its names as parameters fixed by a `requires`, and the
 * facts about one literal are proved in a lemma of their own, so that no
 * proof has to unfold the recursive functions on a long literal.
 */
module Scenarios {
  import opened Common
  import opened DnsConfig
  import opened DnsRouter

  const Corp: Addr := Addr([10, 0, 0, 1])
  const Dev: Addr := Addr([10, 0, 0, 2])

  /** An address parser that knows the two private addresses above. */
  function ParseCorp(s: string): Option<Addr> {
    if s == "10.0.0.1" then Some(Corp) else if s == "10.0.0.2" then Some(Dev) else None
  }

  /** A route table whose keys are all at most `bound` long has no longer key. */
  lemma NoLongerKey(routes: map<string, seq<Addr>>, bound: nat, n: string)
    requires forall k :: k in routes ==> |k| <= bound
    ensures forall c :: LabelSuffix(c, n) && |c| > bound ==> c !in routes
  {
  }

  lemma DevHostIsNormal(name: string)
    requires name == "host.dev.corp.internal"
    ensures Normalize(name) == name
  {
    assert IsLower(name);
    NormalizeFixes(name);
  }

  lemma DevHostSuffix(name: string, c: string)
    requires name == "host.dev.corp.internal" && c == "dev.corp.internal"
    ensures LabelSuffix(c, name) && |c| == 17
  {
    assert name[4] == '.' && name[5..] == c;
  }

  lemma TwoRouteKeys(routes: map<string, seq<Addr>>)
    requires routes == map["corp.internal" := [Corp], "dev.corp.internal" := [Dev]]
    ensures "dev.corp.internal" in routes && routes["dev.corp.internal"] == [Dev]
    ensures forall k :: k in routes ==> |k| <= 17
  {
  }

  /** A route for `dev.corp.internal` beats one for `corp.internal` when
      resolving `host.dev.corp.internal`. */
  lemma MostSpecificRouteWins(routes: map<string, seq<Addr>>, usePublic: bool, configDefaults: seq<Addr>,
                              networkDefaults: seq<Addr>, name: string)
    requires routes == map["corp.internal" := [Corp], "dev.corp.internal" := [Dev]]
    requires name == "host.dev.corp.internal"
    ensures Resolve(routes, usePublic, configDefaults, networkDefaults, name) == [Dev]
  {
    var c := "dev.corp.internal";
    DevHostIsNormal(name);
    DevHostSuffix(name, c);
    TwoRouteKeys(routes);
    NoLongerKey(routes, 17, Normalize(name));
    LongestMatchWins(routes, usePublic, configDefaults, networkDefaults, name, c);
  }

  lemma ExampleIsNormal(name: string)
    requires name == "example.com"
    ensures Normalize(name) == name
  {
    assert IsLower(name);
    NormalizeFixes(name);
  }

  lemma ExampleSuffixes(name: string, key: string)
    requires name == "example.com" && key == "xample.com"
    ensures forall c :: LabelSuffix(c, name) ==> c != key
  {
    forall c | LabelSuffix(c, name) ensures c != key {
      if c != name {
        var i :| 0 <= i < |name| && name[i] == '.' && c == name[i + 1..];
        assert i == 7;
      }
    }
  }

  /** A key `xample.com` is never consulted for `example.com`: removing it
      changes nothing. */
  lemma PartialLabelNeverMatches(routes: map<string, seq<Addr>>, usePublic: bool, configDefaults: seq<Addr>,
                                 networkDefaults: seq<Addr>, name: string, key: string)
    requires name == "example.com" && key == "xample.com"
    ensures Resolve(routes, usePublic, configDefaults, networkDefaults, name)
         == Resolve(routes - {key}, usePublic, configDefaults, networkDefaults, name)
  {
    ExampleIsNormal(name);
    ExampleSuffixes(name, key);
    OnlyLabelSuffixesMatter(routes, routes - {key}, usePublic, configDefaults, networkDefaults, name);
  }

  lemma MixedCaseFacts(mixed: string, plain: string) returns (stem: string)
    requires mixed == "Example.COM." && plain == "example.com"
    ensures mixed == stem + "." && Lower(stem) == plain
  {
    stem := mixed[..|mixed| - 1];
    assert mixed == stem + ".";
    assert Lower(stem) == plain;
  }

  /** `Example.COM.` is resolved as `example.com` is. */
  lemma MixedCaseWithRootDot(routes: map<string, seq<Addr>>, usePublic: bool, configDefaults: seq<Addr>,
                             networkDefaults: seq<Addr>, mixed: string, plain: string)
    requires mixed == "Example.COM." && plain == "example.com"
    ensures Resolve(routes, usePublic, configDefaults, networkDefaults, mixed)
         == Resolve(routes, usePublic, configDefaults, networkDefaults, plain)
  {
    var stem := MixedCaseFacts(mixed, plain);
    ResolveIgnoresCaseAndOuterDots(routes, usePublic, configDefaults, networkDefaults, stem);
  }

  /** A file that routes `corp.internal` to 10.0.0.1 and sets nothing else. */
  const CorpFile: Loaded :=
    Parsed(ConfigData(false, None, Some([RouteEntry("Corp.Internal", Some(["10.0.0.1"]))])))

  lemma CorpFileLoads()
    ensures Reload(CorpFile, ParseCorp) == Success(Settings(false, [], map["corp.internal" := [Corp]]))
  {
    var entry := RouteEntry("Corp.Internal", Some(["10.0.0.1"]));
    assert Lower("Corp.Internal") == "corp.internal";
    assert ParseCorp("10.0.0.1") == Some(Corp);
    var r := ParseAll(ParseCorp, ["10.0.0.1"]);
    assert r.Success?;
    assert |r.value| == 1 && r.value[0] == Corp;
    assert r.value == [Corp];
    assert ParseAll(ParseCorp, ["10.0.0.1"]) == Success([Corp]);
    assert [entry][..0] == [];
  }

  lemma CorpHostIsNormal(name: string)
    requires name == "host.corp.internal"
    ensures Normalize(name) == name
  {
    assert IsLower(name);
    NormalizeFixes(name);
  }

  lemma CorpHostSuffix(name: string, c: string)
    requires name == "host.corp.internal" && c == "corp.internal"
    ensures LabelSuffix(c, name)
  {
    assert name[4] == '.' && name[5..] == c;
  }

  /** `host.corp.internal` goes to the servers of a lone `corp.internal` route. */
  lemma CorpHostResolves(routes: map<string, seq<Addr>>, usePublic: bool, configDefaults: seq<Addr>,
                         networkDefaults: seq<Addr>, name: string)
    requires routes == map["corp.internal" := [Corp]] && name == "host.corp.internal"
    ensures Resolve(routes, usePublic, configDefaults, networkDefaults, name) == [Corp]
  {
    var c := "corp.internal";
    CorpHostIsNormal(name);
    CorpHostSuffix(name, c);
    NoLongerKey(routes, |c|, Normalize(name));
    LongestMatchWins(routes, usePublic, configDefaults, networkDefaults, name, c);
  }

  /**
   * As written: the reload succeeds, yet the route it read is dropped, and
   * `host.corp.internal` is sent to the public resolvers instead of 10.0.0.1.
   */
  method RoutesDroppedAsWritten() returns (outcome: UpdateOutcome, resolvers: seq<Addr>)
    ensures outcome == Updated
    ensures resolvers == PublicDnsServers && resolvers != [Corp]
  {
    var config := new Config();
    CorpFileLoads();
    outcome := config.UpdateConfig(CorpFile, ParseCorp);
    var router := new Router(config);
    ghost var tested;
    var name := "host.corp.internal";
    resolvers, tested := router.GetResolvers(name, []);
    NoMatchFallsBack(config.DnsRoutes, false, [], [], name);
  }

  /** Corrected: the same file makes `host.corp.internal` go to 10.0.0.1. */
  method RoutesHonouredCorrected() returns (outcome: UpdateOutcome, resolvers: seq<Addr>)
    ensures outcome == Updated
    ensures resolvers == [Corp]
  {
    var config := new Config();
    CorpFileLoads();
    outcome := config.UpdateConfigCorrected(CorpFile, ParseCorp);
    var router := new Router(config);
    ghost var tested;
    var name := "host.corp.internal";
    resolvers, tested := router.GetResolvers(name, [Dev]);
    CorpHostResolves(config.DnsRoutes, false, [], [Dev], name);
  }

  /** A file that asks for the public list and names 10.0.0.2 as its default server. */
  const DevFile: Loaded := Parsed(ConfigData(true, Some(["10.0.0.2"]), Some([])))

  lemma DevFileLoads()
    ensures Reload(DevFile, ParseCorp) == Success(Settings(true, [Dev], map[]))
  {
    assert ParseCorp("10.0.0.2") == Some(Dev);
    var r := ParseAll(ParseCorp, ["10.0.0.2"]);
    assert r.Success?;
    assert |r.value| == 1 && r.value[0] == Dev;
    assert r.value == [Dev];
  }

  /**
   * Last known good: a failing reload is rethrown on a fresh configuration,
   * and swallowed after a success, leaving the settings that success loaded.
   */
  method FailureAfterSuccessIsSwallowed() returns (first: UpdateOutcome, second: UpdateOutcome, third: UpdateOutcome, config: Config)
    ensures first == Thrown(ReadFailed)
    ensures second == Updated
    ensures third == Swallowed(ReadFailed)
    ensures config.UsePublicDefaultServers && config.DefaultDnsServers == [Dev]
  {
    config := new Config();
    first := config.UpdateConfig(Unreadable, ParseCorp);
    DevFileLoads();
    second := config.UpdateConfig(DevFile, ParseCorp);
    third := config.UpdateConfig(Unreadable, ParseCorp);
  }
}
