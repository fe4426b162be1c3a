/**
 * Domain-to-resolver routing of DnsDirector.
 *
 * A query name is lower-cased and stripped of dots at both ends, split into
 * labels, and its label-aligned suffixes are looked up from the longest to
 * the shortest; the first one that is a route key decides. Without a match
 * the fallback order is: the public list if configured, the configured
 * defaults, the system defaults, the public list.
 */
module DnsRouter {
  import opened Common
  import opened DnsConfig

  /** `TrimStart('.')`: the longest suffix that does not start with a dot. */
  function TrimStart(s: string): (r: string)
    ensures |r| <= |s| && r == s[|s| - |r|..]
    ensures forall k :: 0 <= k < |s| - |r| ==> s[k] == '.'
    ensures r == [] || r[0] != '.'
    decreases |s|
  {
    if |s| > 0 && s[0] == '.' then TrimStart(s[1..]) else s
  }

  /** `TrimEnd('.')`: the longest prefix that does not end with a dot. */
  function TrimEnd(s: string): (r: string)
    ensures |r| <= |s| && r == s[..|r|]
    ensures forall k :: |r| <= k < |s| ==> s[k] == '.'
    ensures r == [] || r[|r| - 1] != '.'
    decreases |s|
  {
    if |s| > 0 && s[|s| - 1] == '.' then TrimEnd(s[..|s| - 1]) else s
  }

  /** `Trim('.')`: no dot is left at either end. */
  function TrimDots(s: string): (r: string)
    ensures |r| <= |s|
    ensures r == [] || (r[0] != '.' && r[|r| - 1] != '.')
  {
    TrimEnd(TrimStart(s))
  }

  /** `name.ToLowerInvariant().Trim('.')`: no dot at either end. */
  function Normalize(name: string): (r: string)
    ensures |r| <= |name|
    ensures r == [] || (r[0] != '.' && r[|r| - 1] != '.')
  {
    TrimDots(Lower(name))
  }

  /** `s.Split('.')`: the labels between the dots; one empty label for "". */
  function Split(s: string): (parts: seq<string>)
    ensures |parts| >= 1
    decreases |s|
  {
    if s == [] then [""]
    else
      var rest := Split(s[1..]);
      if s[0] == '.' then [""] + rest
      else [[s[0]] + rest[0]] + rest[1..]
  }

  /** `string.Join(".", parts)`. */
  function Join(parts: seq<string>): string {
    if parts == [] then ""
    else if |parts| == 1 then parts[0]
    else parts[0] + "." + Join(parts[1..])
  }

  /** The names the router tests for `name`, in the order it tests them:
      the labels from the k-th on, joined, for k = 0, 1, ... */
  function Candidates(name: string): (cs: seq<string>)
    ensures |cs| == |Split(name)|
    ensures cs[0] == name
    ensures cs[|cs| - 1] == Split(name)[|Split(name)| - 1]
  {
    JoinSplit(name);
    var parts := Split(name);
    assert parts[0..] == parts;
    seq(|parts|, k requires 0 <= k < |parts| => Join(parts[k..]))
  }

  /** The route for the first of the joined suffixes of `parts` that is a key. */
  function Lookup(routes: map<string, seq<Addr>>, parts: seq<string>): (r: Option<seq<Addr>>)
    ensures r.Some? ==> r.value in routes.Values
  {
    if parts == [] then None
    else if Join(parts) in routes then Some(routes[Join(parts)])
    else Lookup(routes, parts[1..])
  }

  /** The resolvers used when no route matches, in the source's order of precedence. */
  function Fallback(usePublic: bool, configDefaults: seq<Addr>, networkDefaults: seq<Addr>): (r: seq<Addr>)
    ensures r != []
  {
    if usePublic then PublicDnsServers
    else if configDefaults != [] then configDefaults
    else if networkDefaults != [] then networkDefaults
    else PublicDnsServers
  }

  /** What `GetResolvers(name)` returns: the list of one of the routes, or
      the fallback. */
  function Resolve(routes: map<string, seq<Addr>>, usePublic: bool, configDefaults: seq<Addr>,
                   networkDefaults: seq<Addr>, name: string): (r: seq<Addr>)
    ensures r in routes.Values || r == Fallback(usePublic, configDefaults, networkDefaults)
  {
    match Lookup(routes, Split(Normalize(name)))
    case Some(resolvers) => resolvers
    case None => Fallback(usePublic, configDefaults, networkDefaults)
  }

  /** `c` is `s` itself or what follows one of the dots of `s`. */
  ghost predicate LabelSuffix(c: string, s: string) {
    c == s || exists i :: 0 <= i < |s| && s[i] == '.' && c == s[i + 1..]
  }

  // ----- Splitting and joining -----

  lemma JoinCons(p: string, ps: seq<string>)
    requires ps != []
    ensures Join([p] + ps) == p + "." + Join(ps)
  {
    assert ([p] + ps)[1..] == ps;
  }

  /** One step of `Split`: a leading dot starts a new empty label, any other
      character extends the first label. */
  lemma SplitCons(s: string)
    requires s != []
    ensures s[0] == '.' ==> Split(s) == [""] + Split(s[1..])
    ensures s[0] != '.' ==> Split(s) == [[s[0]] + Split(s[1..])[0]] + Split(s[1..])[1..]
  {
  }

  /** Joining the labels gives the name back. */
  lemma {:induction false} JoinSplit(s: string)
    ensures Join(Split(s)) == s
    decreases |s|
  {
    if s != [] {
      var t := s[1..];
      var rest := Split(t);
      JoinSplit(t);
      SplitCons(s);
      assert s == [s[0]] + t;
      if s[0] == '.' {
        JoinCons("", rest);
      } else if |rest| == 1 {
        assert Split(s) == [[s[0]] + rest[0]];
      } else {
        JoinCons([s[0]] + rest[0], rest[1..]);
        JoinCons(rest[0], rest[1..]);
        assert [rest[0]] + rest[1..] == rest;
      }
    }
  }

  /** The suffixes of `Split(s)` past the first label, one label further per step:
      `Split(s)[k..]` computed from the split of `s[1..]`. */
  lemma SplitTail(s: string, k: nat)
    requires s != [] && 1 <= k < |Split(s)|
    ensures s[0] == '.' ==> Split(s)[k..] == Split(s[1..])[k - 1..]
    ensures s[0] != '.' ==> Split(s)[k..] == Split(s[1..])[k..]
  {
  }

  /** Every name tested after the first is what follows a dot of `s`. */
  lemma {:induction false} CandidateAfterDot(s: string, k: nat)
    requires 1 <= k < |Split(s)|
    ensures exists i :: 0 <= i < |s| && s[i] == '.' && Join(Split(s)[k..]) == s[i + 1..]
    decreases |s|
  {
    var t := s[1..];
    SplitTail(s, k);
    if s[0] == '.' {
      if k == 1 {
        JoinSplit(t);
        assert s[0] == '.' && Join(Split(s)[k..]) == s[1..];
      } else {
        CandidateAfterDot(t, k - 1);
        var i :| 0 <= i < |t| && t[i] == '.' && Join(Split(t)[k - 1..]) == t[i + 1..];
        assert s[i + 1] == '.' && s[i + 2..] == t[i + 1..];
      }
    } else {
      CandidateAfterDot(t, k);
      var i :| 0 <= i < |t| && t[i] == '.' && Join(Split(t)[k..]) == t[i + 1..];
      assert s[i + 1] == '.' && s[i + 2..] == t[i + 1..];
    }
  }

  /** What follows any dot of `s` is one of the names tested. */
  lemma {:induction false} DotSuffixIsCandidate(s: string, i: nat)
    requires i < |s| && s[i] == '.'
    ensures exists k :: 1 <= k < |Split(s)| && Join(Split(s)[k..]) == s[i + 1..]
    decreases |s|
  {
    var t := s[1..];
    if s[0] == '.' {
      if i == 0 {
        JoinSplit(t);
        SplitTail(s, 1);
        assert Join(Split(s)[1..]) == s[1..];
      } else {
        DotSuffixIsCandidate(t, i - 1);
        var k :| 1 <= k < |Split(t)| && Join(Split(t)[k..]) == t[i..];
        SplitTail(s, k + 1);
        assert t[i..] == s[i + 1..];
      }
    } else {
      DotSuffixIsCandidate(t, i - 1);
      var k :| 1 <= k < |Split(t)| && Join(Split(t)[k..]) == t[i..];
      SplitTail(s, k);
      assert t[i..] == s[i + 1..];
    }
  }

  /**
   * The names tested are exactly the label-aligned suffixes of the name:
   * each tested name is the name or follows one of its dots, and every such
   * suffix is tested.
   */
  lemma CandidatesAreLabelSuffixes(s: string)
    ensures forall k :: 0 <= k < |Candidates(s)| ==> LabelSuffix(Candidates(s)[k], s)
    ensures forall c :: LabelSuffix(c, s) ==> c in Candidates(s)
  {
    JoinSplit(s);
    forall k | 0 <= k < |Candidates(s)| ensures LabelSuffix(Candidates(s)[k], s) {
      if k > 0 { CandidateAfterDot(s, k); }
    }
    forall c | LabelSuffix(c, s) ensures c in Candidates(s) {
      if c == s {
        assert Candidates(s)[0] == c;
      } else {
        var i :| 0 <= i < |s| && s[i] == '.' && c == s[i + 1..];
        DotSuffixIsCandidate(s, i);
        var k :| 1 <= k < |Split(s)| && Join(Split(s)[k..]) == c;
        assert Candidates(s)[k] == c;
      }
    }
  }

  /** Dropping a label shortens the joined name. */
  lemma {:induction false} JoinShrinks(parts: seq<string>, j: nat, k: nat)
    requires j < k < |parts|
    ensures |Join(parts[k..])| < |Join(parts[j..])|
    decreases k - j
  {
    assert parts[j..][1..] == parts[j + 1..];
    JoinCons(parts[j], parts[j + 1..]);
    assert [parts[j]] + parts[j + 1..] == parts[j..];
    if j + 1 < k { JoinShrinks(parts, j + 1, k); }
  }

  /** The names are tested from the longest to the shortest. */
  lemma CandidatesShrink(s: string, j: nat, k: nat)
    requires j < k < |Candidates(s)|
    ensures |Candidates(s)[k]| < |Candidates(s)[j]|
  {
    JoinShrinks(Split(s), j, k);
  }

  // ----- The lookup loop -----

  /** The first tested name that is a key decides the lookup. */
  lemma {:induction false} LookupFirst(routes: map<string, seq<Addr>>, parts: seq<string>, k: nat)
    requires k < |parts| && Join(parts[k..]) in routes
    requires forall j :: 0 <= j < k ==> Join(parts[j..]) !in routes
    ensures Lookup(routes, parts) == Some(routes[Join(parts[k..])])
  {
    if k > 0 {
      assert parts[0..] == parts;
      forall j | 0 <= j < k - 1 ensures Join(parts[1..][j..]) !in routes {
        assert parts[1..][j..] == parts[j + 1..];
      }
      assert parts[1..][k - 1..] == parts[k..];
      LookupFirst(routes, parts[1..], k - 1);
    } else {
      assert parts[0..] == parts;
    }
  }

  /** When no tested name is a key, the lookup finds nothing. */
  lemma {:induction false} LookupMiss(routes: map<string, seq<Addr>>, parts: seq<string>)
    requires forall j :: 0 <= j < |parts| ==> Join(parts[j..]) !in routes
    ensures Lookup(routes, parts) == None
    decreases |parts|
  {
    if parts != [] {
      assert parts[0..] == parts;
      forall j | 0 <= j < |parts| - 1 ensures Join(parts[1..][j..]) !in routes {
        assert parts[1..][j..] == parts[j + 1..];
      }
      LookupMiss(routes, parts[1..]);
    }
  }

  // ----- What the router returns -----

  /**
   * Longest match: a route for a label-aligned suffix of the normalised
   * name, with no route for any longer label-aligned suffix, is the answer,
   * whatever the fallback settings say.
   */
  lemma LongestMatchWins(routes: map<string, seq<Addr>>, usePublic: bool, configDefaults: seq<Addr>,
                         networkDefaults: seq<Addr>, name: string, c: string)
    requires LabelSuffix(c, Normalize(name)) && c in routes
    requires forall c' :: LabelSuffix(c', Normalize(name)) && |c'| > |c| ==> c' !in routes
    ensures Resolve(routes, usePublic, configDefaults, networkDefaults, name) == routes[c]
  {
    var n := Normalize(name);
    var cs := Candidates(n);
    CandidatesAreLabelSuffixes(n);
    var k :| 0 <= k < |cs| && cs[k] == c;
    forall j | 0 <= j < k ensures Join(Split(n)[j..]) !in routes {
      CandidatesShrink(n, j, k);
      assert LabelSuffix(cs[j], n);
    }
    LookupFirst(routes, Split(n), k);
  }

  /** With no route for any label-aligned suffix, the fallback order decides,
      and the answer is never empty. */
  lemma NoMatchFallsBack(routes: map<string, seq<Addr>>, usePublic: bool, configDefaults: seq<Addr>,
                         networkDefaults: seq<Addr>, name: string)
    requires forall c :: LabelSuffix(c, Normalize(name)) ==> c !in routes
    ensures Resolve(routes, usePublic, configDefaults, networkDefaults, name)
         == Fallback(usePublic, configDefaults, networkDefaults)
    ensures Resolve(routes, usePublic, configDefaults, networkDefaults, name) != []
  {
    var n := Normalize(name);
    CandidatesAreLabelSuffixes(n);
    forall j | 0 <= j < |Split(n)| ensures Join(Split(n)[j..]) !in routes {
      assert Candidates(n)[j] == Join(Split(n)[j..]);
    }
    LookupMiss(routes, Split(n));
  }

  /**
   * Without a match the flag wins over every default list; without the flag
   * the configured defaults win over the system ones, and the public list
   * is the last resort.
   */
  lemma NoMatchPrecedence(routes: map<string, seq<Addr>>, usePublic: bool, configDefaults: seq<Addr>,
                          networkDefaults: seq<Addr>, name: string)
    requires forall c :: LabelSuffix(c, Normalize(name)) ==> c !in routes
    ensures var r := Resolve(routes, usePublic, configDefaults, networkDefaults, name);
      && (usePublic ==> r == PublicDnsServers)
      && (!usePublic && configDefaults != [] ==> r == configDefaults)
      && (!usePublic && configDefaults == [] && networkDefaults != [] ==> r == networkDefaults)
      && (!usePublic && configDefaults == [] && networkDefaults == [] ==> r == PublicDnsServers)
  {
    NoMatchFallsBack(routes, usePublic, configDefaults, networkDefaults, name);
  }

  /** Only the label-aligned suffixes of the name are ever consulted: two
      route tables that agree on them give the same answer. */
  lemma OnlyLabelSuffixesMatter(routes1: map<string, seq<Addr>>, routes2: map<string, seq<Addr>>,
                                usePublic: bool, configDefaults: seq<Addr>, networkDefaults: seq<Addr>, name: string)
    requires forall c :: LabelSuffix(c, Normalize(name)) ==>
               (c in routes1 <==> c in routes2) && (c in routes1 ==> routes1[c] == routes2[c])
    ensures Resolve(routes1, usePublic, configDefaults, networkDefaults, name)
         == Resolve(routes2, usePublic, configDefaults, networkDefaults, name)
  {
    var n := Normalize(name);
    CandidatesAreLabelSuffixes(n);
    forall j | 0 <= j < |Split(n)|
      ensures Join(Split(n)[j..]) in routes1 <==> Join(Split(n)[j..]) in routes2
      ensures Join(Split(n)[j..]) in routes1 ==> routes1[Join(Split(n)[j..])] == routes2[Join(Split(n)[j..])]
    {
      assert Candidates(n)[j] == Join(Split(n)[j..]);
      assert LabelSuffix(Candidates(n)[j], n);
    }
    assert Split(n)[0..] == Split(n);
    LookupAgrees(routes1, routes2, Split(n), Split(n), 0);
  }

  lemma {:induction false} LookupAgrees(routes1: map<string, seq<Addr>>, routes2: map<string, seq<Addr>>,
                                        all: seq<string>, parts: seq<string>, k: nat)
    requires k <= |all| && parts == all[k..]
    requires forall j :: k <= j < |all| ==>
               (Join(all[j..]) in routes1 <==> Join(all[j..]) in routes2) &&
               (Join(all[j..]) in routes1 ==> routes1[Join(all[j..])] == routes2[Join(all[j..])])
    ensures Lookup(routes1, parts) == Lookup(routes2, parts)
    decreases |parts|
  {
    if parts != [] {
      assert all[k..][1..] == all[k + 1..];
      LookupAgrees(routes1, routes2, all, parts[1..], k + 1);
    }
  }

  // ----- Normalisation -----

  /** A normalised name has no upper-case letter. */
  lemma NormalizeShape(name: string)
    ensures IsLower(Normalize(name))
  {
    var l := Lower(name);
    LowerIsLower(name);
    var t := TrimStart(l);
    assert t == l[|l| - |t|..|l|];
    LowerSlice(l, |l| - |t|, |l|);
    var u := TrimEnd(t);
    assert u == t[0..|u|];
    LowerSlice(t, 0, |u|);
  }

  /** A name with no upper-case letter and no dot at either end is its own
      normal form. */
  lemma NormalizeFixes(name: string)
    requires IsLower(name)
    requires name == [] || (name[0] != '.' && name[|name| - 1] != '.')
    ensures Normalize(name) == name
  {
    LowerOfLower(name);
    assert TrimStart(name) == name;
    assert TrimEnd(name) == name;
  }

  /** Normalising twice is normalising once. */
  lemma NormalizeIdempotent(name: string)
    ensures Normalize(Normalize(name)) == Normalize(name)
  {
    NormalizeShape(name);
    NormalizeFixes(Normalize(name));
  }

  lemma {:induction false} TrimStartAppendDot(s: string)
    ensures TrimStart(s + ".") == if TrimStart(s) == [] then [] else TrimStart(s) + "."
    decreases |s|
  {
    if |s| > 0 && s[0] == '.' {
      assert (s + ".")[1..] == s[1..] + ".";
      TrimStartAppendDot(s[1..]);
    } else if s == [] {
      assert "."[1..] == "";
    }
  }

  /** Lower-casing the name first does not change its normal form. */
  lemma NormalizeOfLower(name: string)
    ensures Normalize(Lower(name)) == Normalize(name)
  {
    LowerIsLower(name);
  }

  /** A dot in front of the name does not change its normal form. */
  lemma NormalizeLeadingDot(name: string)
    ensures Normalize("." + name) == Normalize(name)
  {
    var l := Lower(name);
    LowerAppend(".", name);
    assert Lower(".") == ".";
    assert ("." + l)[1..] == l;
    assert TrimStart("." + l) == TrimStart(l);
  }

  /** A dot after the name does not change its normal form. */
  lemma NormalizeTrailingDot(name: string)
    ensures Normalize(name + ".") == Normalize(name)
  {
    var l := Lower(name);
    LowerAppend(name, ".");
    assert Lower(".") == ".";
    TrimStartAppendDot(l);
    var t := TrimStart(l);
    if t != [] {
      assert (t + ".")[..|t|] == t;
      assert TrimEnd(t + ".") == TrimEnd(t);
    }
  }

  /** Two names with the same normal form get the same answer. */
  lemma ResolveByNormalForm(routes: map<string, seq<Addr>>, usePublic: bool, configDefaults: seq<Addr>,
                            networkDefaults: seq<Addr>, name1: string, name2: string)
    requires Normalize(name1) == Normalize(name2)
    ensures Resolve(routes, usePublic, configDefaults, networkDefaults, name1)
         == Resolve(routes, usePublic, configDefaults, networkDefaults, name2)
  {
  }

  /** The router's answer is case-insensitive and ignores dots at either end of the name. */
  lemma ResolveIgnoresCaseAndOuterDots(routes: map<string, seq<Addr>>, usePublic: bool, configDefaults: seq<Addr>,
                                       networkDefaults: seq<Addr>, name: string)
    ensures Resolve(routes, usePublic, configDefaults, networkDefaults, Lower(name))
         == Resolve(routes, usePublic, configDefaults, networkDefaults, name)
    ensures Resolve(routes, usePublic, configDefaults, networkDefaults, "." + name)
         == Resolve(routes, usePublic, configDefaults, networkDefaults, name)
    ensures Resolve(routes, usePublic, configDefaults, networkDefaults, name + ".")
         == Resolve(routes, usePublic, configDefaults, networkDefaults, name)
  {
    NormalizeOfLower(name);
    ResolveByNormalForm(routes, usePublic, configDefaults, networkDefaults, Lower(name), name);
    NormalizeLeadingDot(name);
    ResolveByNormalForm(routes, usePublic, configDefaults, networkDefaults, "." + name, name);
    NormalizeTrailingDot(name);
    ResolveByNormalForm(routes, usePublic, configDefaults, networkDefaults, name + ".", name);
  }

  /** An empty or all-dot name tests the single key "" and then falls back. */
  lemma EmptyNameTestsEmptyKey(routes: map<string, seq<Addr>>, usePublic: bool, configDefaults: seq<Addr>,
                               networkDefaults: seq<Addr>, name: string)
    requires forall i :: 0 <= i < |name| ==> name[i] == '.'
    ensures Candidates(Normalize(name)) == [""]
    ensures Resolve(routes, usePublic, configDefaults, networkDefaults, name)
         == if "" in routes then routes[""] else Fallback(usePublic, configDefaults, networkDefaults)
  {
    var l := Lower(name);
    assert forall i :: 0 <= i < |l| ==> l[i] == '.';
    assert TrimStart(l) == [];
    assert Normalize(name) == "";
    assert Split("") == [""];
    assert Join([""]) == "";
    assert Lookup(routes, [""]) == if "" in routes then Some(routes[""]) else Lookup(routes, [""][1..]);
    assert [""][1..] == [];
  }

  /** The candidates are tested one after the other: a tested prefix of
      `Candidates(n)` followed by the next candidate is a longer prefix. */
  lemma TestedExtend(n: string, tested: seq<string>, test: string)
    requires |tested| < |Split(n)| && tested == Candidates(n)[..|tested|]
    requires test == Join(Split(n)[|tested|..])
    ensures tested + [test] == Candidates(n)[..|tested| + 1]
  {
  }

  // ----- The router object -----

  /** The router reads the live configuration; the system default servers
      are passed in, since the network component that owns them is not part
      of this model. */
  class Router {
    const config: Config

    constructor(config: Config)
      ensures this.config == config
    {
      this.config := config;
    }

    /**
     * `GetResolvers`: tests the label-aligned suffixes from the longest down,
     * returning at the first route key, then applies the fallback order.
     * `tested` records the names tested: a prefix of `Candidates`, ending at
     * the hit, or all of them.
     */
    method GetResolvers(name: string, networkDefaults: seq<Addr>) returns (resolvers: seq<Addr>, ghost tested: seq<string>)
      ensures resolvers == Resolve(config.DnsRoutes, config.UsePublicDefaultServers, config.DefaultDnsServers,
                                   networkDefaults, name)
      ensures 1 <= |tested| <= |Candidates(Normalize(name))| && tested == Candidates(Normalize(name))[..|tested|]
      ensures forall j :: 0 <= j < |tested| - 1 ==> tested[j] !in config.DnsRoutes
      ensures tested[|tested| - 1] in config.DnsRoutes || |tested| == |Candidates(Normalize(name))|
    {
      var n := Normalize(name);
      var parts := Split(n);
      ghost var all := parts;
      ghost var k := 0;
      tested := [];
      while |parts| > 0
        invariant k + |parts| == |all| && parts == all[k..]
        invariant |tested| == k && tested == Candidates(n)[..k]
        invariant forall j :: 0 <= j < k ==> tested[j] !in config.DnsRoutes
        invariant Lookup(config.DnsRoutes, all) == Lookup(config.DnsRoutes, parts)
        decreases |parts|
      {
        var test := Join(parts);
        TestedExtend(n, tested, test);
        tested := tested + [test];
        if test in config.DnsRoutes {
          resolvers := config.DnsRoutes[test];
          return;
        }
        assert all[k + 1..] == parts[1..];
        parts := parts[1..];
        k := k + 1;
      }
      if config.UsePublicDefaultServers {
        resolvers := PublicDnsServers;
      } else if config.DefaultDnsServers != [] {
        resolvers := config.DefaultDnsServers;
      } else if networkDefaults != [] {
        resolvers := networkDefaults;
      } else {
        resolvers := PublicDnsServers;
      }
    }
  }
}
