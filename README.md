# DnsDirector, modelled in Dafny

DnsDirector is a Windows service that answers DNS queries by forwarding each
question to a set of upstream resolvers. The set depends on the query name.
This project models the three pieces of the service that hold its logic:

- **Routing** (`Router.GetResolvers`, module `DnsRouter`). The name is lower-cased
  and stripped of dots at both ends. Its label-aligned suffixes are then tested
  against the route table, longest first. Without a match the fallback order
  is: the public list when `UsePublicDefaultServers` is set, the configured
  default servers, the system default servers, and the public list.
- **Configuration reload** (`Config.UpdateConfig`, module `DnsConfig`). A
  deserialised configuration file is validated and committed to the `Config`
  object (the flag and the default servers; see Findings). The last known good configuration is kept, and a failure is rethrown
  only while no reload has ever succeeded.
- **Deep copy of the network snapshot** (`NetworkState.Clone` and
  `InterfaceState.Clone`, module `NetworkModel`).

The modules follow the source files:

- `Common` holds option and result values, addresses as byte sequences, and
  ASCII lower-casing.
- `DnsConfig` is `Config.cs`.
- `DnsRouter` is `Router.cs`.
- `NetworkModel` is `NetworkState.cs`.
- `Scenarios` holds concrete scenarios of the router and the configuration
  reload: a longest match, a partial label, a mixed-case name with a root
  dot, and the effect of `UpdateConfig` never storing the routes it builds
  (described under Findings).

Each imperative method of `Router.cs` and `Config.cs` is proved against a pure
specification function, and the source's promises are lemmas about those
functions:

- `Router.GetResolvers` has its `while` loop over `parts` and is proved
  against `Resolve`.
- The `foreach` of `UpdateConfig` is `Config.BuildNewRoutes`, proved against
  `BuildRoutes`.
- `UpdateConfig` is a `modifies this` method on the `Config` class, with one
  postcondition for success and one for failure.

The `Clone` methods of `NetworkState.cs` state the copy they return directly,
with `fresh` and field-by-field equality.

Where the code's behaviour is worth spelling out:

- **Empty route values.** A route whose server list is empty is returned as it
  is, even though it is empty (Router.cs:31-35). So the router's answer is
  never empty only when no route matches. The model follows the code:
  `NoMatchFallsBack` promises a non-empty answer for that case only, and
  `LongestMatchWins` returns the route's value whatever it holds.
- **Empty or all-dot names.** Such a name does not go straight to the
  fallback. It first tests the key `""`, because splitting the empty string
  yields one empty label (Router.cs:22-27). `EmptyNameTestsEmptyKey` states
  this.
- **The public list.** `Router.cs` refers to `Config.PublicDnsServers`, which
  `Config.cs` only defines as the private constant `publicDnsServers`
  (Config.cs:18-26). The model uses that six-address list for both.

## Model

| member | source | states |
|---|---|---|
| Common.LowerIsLower | DnsDirector.Service/Router.cs:22 | lower-casing leaves no upper-case letter and lowering twice is lowering once |
| Common.Lower | DnsDirector.Service/Router.cs:22 | `ToLowerInvariant`, restricted to ASCII: each character lowered, the length kept; `LowerIsLower` states what it promises |
| DnsRouter.TrimStart | DnsDirector.Service/Router.cs:22 | the result is a suffix of the input, everything removed is a dot, and the result does not start with a dot |
| DnsRouter.TrimEnd | DnsDirector.Service/Router.cs:22 | the result is a prefix of the input, everything removed is a dot, and the result does not end with a dot |
| DnsRouter.TrimDots | DnsDirector.Service/Router.cs:22 | `Trim('.')` is no longer than its input and leaves no dot at either end |
| DnsRouter.Normalize | DnsDirector.Service/Router.cs:22 | the normalised name is no longer than the query name and has no dot at either end |
| DnsRouter.NormalizeShape | DnsDirector.Service/Router.cs:22 | a normalised name has no upper-case letter |
| DnsRouter.NormalizeFixes | DnsDirector.Service/Router.cs:22 | a name with no upper-case letter and no dot at either end is left as it is |
| DnsRouter.NormalizeIdempotent | DnsDirector.Service/Router.cs:22 | normalising a normalised name changes nothing |
| DnsRouter.Split | DnsDirector.Service/Router.cs:26 | splitting on '.' always yields at least one part, so the loop runs at least once |
| DnsRouter.Join | DnsDirector.Service/Router.cs:29 | `string.Join(".", parts)`; `JoinSplit` states that it undoes `Split` |
| DnsRouter.JoinSplit | DnsDirector.Service/Router.cs:26-29 | joining the parts of a split with '.' gives the name back, so the first name tested is the normalised name itself |
| DnsRouter.Candidates | DnsDirector.Service/Router.cs:26-37 | one tested name per label; the first is the whole name and the last is its last label |
| DnsRouter.Lookup | DnsDirector.Service/Router.cs:27-37 | a hit is the list of one of the routes. `LookupFirst` and `LookupMiss` state which one: the first joined suffix that is a key, or none when no suffix is a key |
| DnsRouter.Fallback | DnsDirector.Service/Router.cs:39-56 | the fallback list is never empty |
| DnsRouter.Resolve | DnsDirector.Service/Router.cs:20-56 | the answer is the server list of one of the routes, or the fallback list |
| DnsRouter.CandidatesAreLabelSuffixes | DnsDirector.Service/Router.cs:26-38 | the names tested are exactly the label-aligned suffixes of the normalised name: each one is the name or follows one of its dots, and every such suffix is tested |
| DnsRouter.LongestMatchWins | DnsDirector.Service/Router.cs:27-37 | when a label-aligned suffix is a route key and no longer one is, the answer is that route's value, whatever the flag and the default lists hold |
| DnsRouter.NoMatchFallsBack | DnsDirector.Service/Router.cs:39-56 | when no label-aligned suffix is a key, the answer is the fallback list, and it is not empty |
| DnsRouter.NoMatchPrecedence | DnsDirector.Service/Router.cs:40-56 | without a match: the flag gives the public list whatever the defaults hold; otherwise non-empty config defaults, then non-empty system defaults, then the public list |
| DnsRouter.OnlyLabelSuffixesMatter | DnsDirector.Service/Router.cs:26-38 | two route tables that agree on the label-aligned suffixes of the name give the same answer, so a key such as `xample.com` is never consulted for `example.com` |
| DnsRouter.ResolveIgnoresCaseAndOuterDots | DnsDirector.Service/Router.cs:22 | the answer for a name equals the answer for its lower-cased form, for the name with a dot before it, and for the name with a dot after it |
| DnsRouter.EmptyNameTestsEmptyKey | DnsDirector.Service/Router.cs:22-27 | an empty or all-dot name tests exactly the one key `""`, then falls back |
| DnsRouter.Router.constructor | DnsDirector.Service/Router.cs:14-18 | the router reads the configuration object it is given |
| DnsRouter.Router.GetResolvers | DnsDirector.Service/Router.cs:20-58 | the loop returns what `Resolve` defines. The names it tests are a prefix of the candidates, longest first; all but the last missed; the last hit, or every candidate was tested |
| DnsConfig.ParseAll | DnsDirector.Service/Config.cs:71 | it succeeds exactly when every string parses, and then gives the addresses in input order; otherwise it reports the first string that does not parse |
| DnsConfig.AddRoute | DnsDirector.Service/Config.cs:75-76 | one turn of the loop: a null list fails with that key; otherwise an unparsable address fails with the error `ParseAll` reports, the `BadAddress` of the first string that does not parse; otherwise a key already present after lower-casing fails as a duplicate; and exactly in the remaining case the lower-cased key is added, bound to the parsed list, with the other routes unchanged |
| DnsConfig.BuildRoutes | DnsDirector.Service/Config.cs:72-77 | a completed loop has one route per entry |
| DnsConfig.Reload | DnsDirector.Service/Config.cs:68-77 | an unreadable file fails as such; a default address that does not parse fails with the error `ParseAll` reports for the default list; with the defaults parsed, a null `Routes` fails as such; a success comes from a parsed file with `Routes`, keeps the flag as read and has one route per entry |
| DnsConfig.BuildRoutesSpec | DnsDirector.Service/Config.cs:72-77 | the route loop succeeds exactly when every list is non-null and parses and no two keys are equal after lower-casing; the map then has exactly the lower-cased keys, each bound to its parsed list |
| DnsConfig.BuildRoutesStopsAtFailure | DnsDirector.Service/Config.cs:72-77 | an exception in the first `i` routes is the outcome of the whole loop |
| DnsConfig.BuiltKeysAreLower | DnsDirector.Service/Config.cs:76 | every key of a built route map is lower-case |
| DnsConfig.ReloadSpec | DnsDirector.Service/Config.cs:68-77 | a reload succeeds exactly when the file was read, every default address parses, `Routes` is present and the routes build. It then keeps the flag as read, reads a null default list as empty, keeps the defaults in input order, and keys the routes in lower case |
| DnsConfig.DuplicateKeyFails | DnsDirector.Service/Config.cs:76 | two route keys that differ only in case make the reload fail |
| DnsConfig.Config.constructor | DnsDirector.Service/Config.cs:29-33 | a new configuration is not configured, has the flag off, no default servers and no routes |
| DnsConfig.Config.BuildNewRoutes | DnsDirector.Service/Config.cs:72-77 | the `foreach` computes `BuildRoutes`, stopping at the first exception |
| DnsConfig.Config.Load | DnsDirector.Service/Config.cs:56-77 | the statements of the `try` block before the first field assignment compute `Reload` |
| DnsConfig.Config.UpdateConfig | DnsDirector.Service/Config.cs:52-90 | as written. On success: configured, with the new flag and defaults, and `DnsRoutes` unchanged. On failure: nothing changes, and the exception is rethrown only if no reload had succeeded before |
| DnsConfig.Config.UpdateConfigCorrected | DnsDirector.Service/Config.cs:72-83 | as intended: it behaves like `UpdateConfig`, except that on success `DnsRoutes` also becomes the built routes |
| NetworkModel.IPAddress.constructor | DnsDirector.Service/NetworkState.cs:46 | a new address object holds the given bytes |
| NetworkModel.InterfaceState.constructor | DnsDirector.Service/NetworkState.cs:29-36 | a new interface has no DNS server list (null) |
| NetworkModel.InterfaceState.Clone | DnsDirector.Service/NetworkState.cs:38-48 | it fails exactly when `DnsServers` is null. Otherwise it returns a fresh object with equal fields and a list of fresh, pairwise distinct address objects with equal bytes, in the same order |
| NetworkModel.NetworkState.constructor | DnsDirector.Service/NetworkState.cs:16-19 | a new state has no interfaces |
| NetworkModel.NetworkState.CloneInterfaces | DnsDirector.Service/NetworkState.cs:25 | the `ToDictionary` fails exactly when some interface has no DNS server list. Otherwise it has the same keys, each bound to its own fresh copy of the original interface, holding fresh, pairwise distinct addresses; no two keys share a copy |
| NetworkModel.NetworkState.Clone | DnsDirector.Service/NetworkState.cs:21-27 | it fails exactly when some interface has no DNS server list. Otherwise it returns a fresh state with the same flag and a deep copy of the interface dictionary, as `CloneInterfaces` states |
| NetworkModel.CloneIsIndependent | DnsDirector.Service/NetworkState.cs:21-48 | renaming an interface of the clone leaves the original interface's name as it was |
| Scenarios.MostSpecificRouteWins | DnsDirector.Service/Router.cs:27-37 | with routes for `corp.internal` and `dev.corp.internal`, `host.dev.corp.internal` goes to the `dev.corp.internal` servers |
| Scenarios.PartialLabelNeverMatches | DnsDirector.Service/Router.cs:26-38 | removing a key `xample.com` never changes the answer for `example.com` |
| Scenarios.MixedCaseWithRootDot | DnsDirector.Service/Router.cs:22 | `Example.COM.` gets the same answer as `example.com` |
| Scenarios.CorpFileLoads | DnsDirector.Service/Config.cs:68-77 | a file with one route `Corp.Internal: [10.0.0.1]` loads as the lower-cased route, an empty default list and the flag off |
| Scenarios.RoutesDroppedAsWritten | DnsDirector.Service/Config.cs:72-83 | as written, that file reloads successfully, yet `host.corp.internal` is sent to the public list and not to 10.0.0.1 |
| Scenarios.RoutesHonouredCorrected | DnsDirector.Service/Config.cs:72-83 | with the corrected reload, the same file sends `host.corp.internal` to 10.0.0.1 |
| Scenarios.DevFileLoads | DnsDirector.Service/Config.cs:68-77 | a file with the flag on, default `10.0.0.2` and no routes loads as exactly those settings |
| Scenarios.FailureAfterSuccessIsSwallowed | DnsDirector.Service/Config.cs:79-89 | an unreadable file is rethrown on a fresh configuration; after a good load the same failure is swallowed, and the flag and defaults stay those of the good load |

## Left out

- `Server.cs` is not part of this model. It is DNS message handling over a
  foreign DNS library, with concurrent upstream queries.
- `Network.cs` is not part of this model. It is WMI enumeration of adapters
  and change events. The router reads `network.DefaultServers` (Router.cs:50),
  but `Network.cs` defines no such member. The model takes that list as the
  `networkDefaults` parameter of `GetResolvers`.
- `Service.cs`, `Program.cs` and `Installer.cs` are not part of this model.
  They are service start-up, shutdown and installation.
- The `FileSystemWatcher` and its change handler (Config.cs:35-50) are left
  out. They are an event source; the model calls `UpdateConfig` directly.
- Opening the file and YAML deserialisation (Config.cs:58-64) are not modelled.
  `UpdateConfig` receives either the deserialised data (`Parsed`) or the fact
  that this step failed (`Unreadable`). An empty file deserialises to null
  without throwing, and the first use of `data` (Config.cs:67) then throws a
  `NullReferenceException`. This case is also represented by `Unreadable`;
  nothing is assigned before either exception.
- `IPAddress.Parse` is not modelled as an IP parser. It is the partial
  function parameter `parse`; an exception from it is a `None`.
- `ToLowerInvariant` is modelled as ASCII lower-casing only. Non-ASCII case
  mappings are not modelled.
- Logging, including the `changed` flag (it only selects a log message), and
  the NDC context stack (Router.cs:23) are dropped.
- The order in which `Dictionary.Keys` enumerates the routes is taken to be
  the order of the entries in the file. That order only decides which error
  a failing reload reports.
- Null strings are not modelled: the query name passed to `GetResolvers`
  (Router.cs:22 dereferences it), route keys, interface `Id` and `Name`, and
  the elements of address lists. Neither is a null `Interfaces` map or a null
  interface in it. Only the nulls the source's own defaults create appear:
  `DefaultServers`, `Routes`, a route's list, and `DnsServers`.
- Route values are modelled as immutable sequences, which are shared with the
  router. The source returns the configuration's own `List` objects, and a
  caller could mutate them; that aliasing is not modelled.
- Concurrent reloads and queries are not modelled: `UpdateConfig` runs on the
  watcher's thread while the router reads the configuration.
- NetworkModel.NetworkState.CloneInterfaces: the address objects of each copy
  are stated fresh and pairwise distinct, but it is not stated that the lists
  of two different copies share no address object, although every
  `new IPAddress` (NetworkState.cs:46) is an object of its own. The extra
  quantifier over pairs of keys makes the proof too expensive.
- NetworkModel.InterfaceState.Clone: addresses are compared by their bytes
  only, and the IPv6 scope id is not modelled. `new IPAddress(ds.GetAddressBytes())`
  (NetworkState.cs:46) resets the scope id to 0, so a link-local server such as
  `fe80::1%12` is copied as `fe80::1`, and `IPAddress.Equals` then tells the
  copy from the original. The model does not show that loss.
- The enumeration values of `OperationalStatus` and `NetworkInterfaceType`
  are opaque integers.

## Findings

| source | as written | input that shows it | evidently intended | confidence | as-written member | corrected member |
|---|---|---|---|---|---|---|
| DnsDirector.Service/Config.cs:72-83 | `newRoutes` is built and validated, but never assigned to `DnsRoutes`, so the route table stays empty for the life of the service | a file with the single route `Corp.Internal: [10.0.0.1]`: the reload succeeds, and `host.corp.internal` goes to the public resolvers | `DnsRoutes = newRoutes` beside the other two assignments, so that a successful reload installs the routes it read | high; not executed | Scenarios.RoutesDroppedAsWritten | DnsConfig.Config.UpdateConfigCorrected |
