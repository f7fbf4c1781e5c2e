# BNS naming service, modelled in Dafny

`BNSNamingService` is the component of the jprotobuf RPC client that turns
logical service signatures into endpoints. It asks the BNS registry for the
instances registered under a configured service name. It drops the instances
whose status the configured filter rejects. For each remaining instance it
builds a `host:port` entry from the instance's dotted IP and a selected port,
and it maps every requested signature to that one endpoint list.

The model follows the source's structure:

- `wrappers.dfy`: Java's null references and thrown exceptions as `Option`, `Result` and `Outcome`.
- `string_utils.dfy`: Java's `int` (`int32`) and the string helpers the class calls. These are `isBlank`, `String.trim`, `split(s, ',')` and the lenient `toInt` conversions built on `Integer.parseInt`. Parsing is paired with decimal formatting (`FormatInt`), and splitting is paired with joining (`Join`).
- `bns_query.dfy`: the registry's `Instance` record and the query proxy. The proxy holds the registry's reply, which the environment chooses. It keeps a log of the queries it receives, so callers can say how many queries were issued.
- `status_filter.dfy`: the filter set built from `filterInstanceStatus` (`FilterSetOf`), the loop that builds it (`BuildStatusFilterSet`) and the per-instance test (`Accepts`).
- `port_resolver.dfy`: `buildRpcPort`, i.e. the named port with a fallback to the default port.
- `register_infos.dfy`: `RegisterInfo` and the specification of `wrapRegisterInfos`. `Endpoints` gives the endpoints of the accepted instances, and `Wrap` adds the null case. Lemmas show that the result is the order-preserving subsequence of accepted instances.
- `bns_naming.dfy`: the class `BnsNamingService`. It has its configuration fields, setters, `AfterPropertiesSet`, `List`, `DoGetInstanceList` and `WrapRegisterInfos`. Each method is proved against the functions above. Two clients use only the class's contracts. `InitialisationScenario` shows that initialisation without a BNS name fails and then succeeds with the default filter {0}. `QueryCountScenario` shows that `List(None)` issues no query and that an empty signature set still queries once.

Points where the code's behaviour may be surprising; the model follows the code:

- `list` does not check that `afterPropertiesSet` ran. Before initialisation the filter set is null, so every status is accepted.
- When every instance is filtered out, `wrapRegisterInfos` returns an empty list, not null. It returns null only for a null or empty instance list.
- A filter string such as `","` is not blank but contains no token. The filter set is then empty, so every instance is rejected (`StatusFilter.SeparatorsOnlyRejectAll`).
- A blank filter string does not reset the filter set. It leaves the set unchanged: null on a fresh service, or the earlier set if `afterPropertiesSet` runs again.

## Model

| member | source | states |
|---|---|---|
| `StringUtils.Split` | jprotobuf-rpc-registry-bns/src/main/java/com/baidu/pbrpc/register/bns/BNSNamingService.java:121 | every token is non-empty and free of the separator |
| `StringUtils.SplitAtSeparator` | jprotobuf-rpc-registry-bns/src/main/java/com/baidu/pbrpc/register/bns/BNSNamingService.java:121 | every separator separates: the tokens of a, a separator and b are the tokens of a followed by those of b, so a run of separators counts as one and never fuses its neighbours |
| `StringUtils.DoubleSeparatorExample` | jprotobuf-rpc-registry-bns/src/main/java/com/baidu/pbrpc/register/bns/BNSNamingService.java:121 | "0,,2" has exactly the tokens "0" and "2" |
| `StringUtils.SplitKeepsEverythingButSeparators` | jprotobuf-rpc-registry-bns/src/main/java/com/baidu/pbrpc/register/bns/BNSNamingService.java:121 | concatenating the tokens gives the input with every separator removed: splitting loses nothing else |
| `StringUtils.SplitJoin` | jprotobuf-rpc-registry-bns/src/main/java/com/baidu/pbrpc/register/bns/BNSNamingService.java:121 | splitting a comma-joined list of non-empty, comma-free tokens gives back exactly those tokens |
| `StringUtils.TrimStart` | jprotobuf-rpc-registry-bns/src/main/java/com/baidu/pbrpc/register/bns/BNSNamingService.java:123 | the first scan of `trim` stops at the first visible character at or after its start, or at the end |
| `StringUtils.TrimEnd` | jprotobuf-rpc-registry-bns/src/main/java/com/baidu/pbrpc/register/bns/BNSNamingService.java:123 | the second scan of `trim` stops just after the last visible character of the remaining part, or at its start |
| `StringUtils.TrimStartCutsBlanks` | jprotobuf-rpc-registry-bns/src/main/java/com/baidu/pbrpc/register/bns/BNSNamingService.java:123 | every character the first scan passes over is at or below the space character |
| `StringUtils.TrimEndCutsBlanks` | jprotobuf-rpc-registry-bns/src/main/java/com/baidu/pbrpc/register/bns/BNSNamingService.java:123 | every character the second scan passes over is at or below the space character |
| `StringUtils.TrimEndsVisible` | jprotobuf-rpc-registry-bns/src/main/java/com/baidu/pbrpc/register/bns/BNSNamingService.java:123 | a trimmed token is empty or starts and ends with a visible character |
| `StringUtils.TrimIsCore` | jprotobuf-rpc-registry-bns/src/main/java/com/baidu/pbrpc/register/bns/BNSNamingService.java:123 | a token's trim is a contiguous slice of it, with only blanks cut off on either side |
| `StringUtils.TrimIdempotent` | jprotobuf-rpc-registry-bns/src/main/java/com/baidu/pbrpc/register/bns/BNSNamingService.java:123 | trimming twice is trimming once |
| `StringUtils.ParseFormat` | jprotobuf-rpc-registry-bns/src/main/java/com/baidu/pbrpc/register/bns/BNSNamingService.java:123 | a decimal-formatted `int` parses back to itself, through `parseInt`, `toInt(s, 0)` and `toInt(s)` |
| `StringUtils.ParseIntRejects` | jprotobuf-rpc-registry-bns/src/main/java/com/baidu/pbrpc/register/bns/BNSNamingService.java:123 | an empty string, a bare sign, a number with a blank before or after it, and a non-digit do not parse |
| `StringUtils.ParseIntSigns` | jprotobuf-rpc-registry-bns/src/main/java/com/baidu/pbrpc/register/bns/BNSNamingService.java:123 | a `+` before any decimal numeral up to `MAX_VALUE` gives its value, and a `-` before any numeral up to 2^31 gives its negation (e.g. "+7" is 7, "-7" is -7) |
| `StringUtils.ParseIntOutOfRange` | jprotobuf-rpc-registry-bns/src/main/java/com/baidu/pbrpc/register/bns/BNSNamingService.java:123 | a decimal numeral beyond the range of `int` does not parse, whatever its sign |
| `StringUtils.TrimFormat` | jprotobuf-rpc-registry-bns/src/main/java/com/baidu/pbrpc/register/bns/BNSNamingService.java:123 | a formatted `int` has nothing for `trim` to remove |
| `StatusFilter.BuildStatusFilterSet` | jprotobuf-rpc-registry-bns/src/main/java/com/baidu/pbrpc/register/bns/BNSNamingService.java:120-124 | the loop that adds one trimmed, parsed token per iteration ends with exactly the filter set of the string |
| `StatusFilter.FilterSetMembers` | jprotobuf-rpc-registry-bns/src/main/java/com/baidu/pbrpc/register/bns/BNSNamingService.java:120-124 | a status is in the filter set iff some token's trim parses to it (so "007" and "+7" both give 7), or it is 0 and some token's trim does not parse; no other value appears |
| `StatusFilter.MalformedTokenAcceptsZero` | jprotobuf-rpc-registry-bns/src/main/java/com/baidu/pbrpc/register/bns/BNSNamingService.java:123 | a token that does not parse makes the filter accept status 0 |
| `StatusFilter.FilterSetSize` | jprotobuf-rpc-registry-bns/src/main/java/com/baidu/pbrpc/register/bns/BNSNamingService.java:120-124 | the filter set has at most as many statuses as there are tokens |
| `StatusFilter.Formatted` | jprotobuf-rpc-registry-bns/src/main/java/com/baidu/pbrpc/register/bns/BNSNamingService.java:121-123 | the decimal forms of the statuses, one for one and in order |
| `StatusFilter.FormattedToken` | jprotobuf-rpc-registry-bns/src/main/java/com/baidu/pbrpc/register/bns/BNSNamingService.java:123 | a formatted status is a non-empty, comma-free token that stands for that status |
| `StatusFilter.FilterSetOfFormatted` | jprotobuf-rpc-registry-bns/src/main/java/com/baidu/pbrpc/register/bns/BNSNamingService.java:119-124 | a comma-separated list of statuses in decimal builds exactly the set of those statuses |
| `StatusFilter.DefaultFilterAcceptsZeroOnly` | jprotobuf-rpc-registry-bns/src/main/java/com/baidu/pbrpc/register/bns/BNSNamingService.java:49 | the default filter string "0" accepts status 0 and no other |
| `StatusFilter.ZeroTwoFilter` | jprotobuf-rpc-registry-bns/src/main/java/com/baidu/pbrpc/register/bns/BNSNamingService.java:119-124 | "0,2" builds {0, 2}: it accepts 0 and 2 and rejects 1 |
| `StatusFilter.SeparatorsOnlyRejectAll` | jprotobuf-rpc-registry-bns/src/main/java/com/baidu/pbrpc/register/bns/BNSNamingService.java:119-124 | "," is not blank, builds the empty set and so rejects every status |
| `StatusFilter.DoubledSeparatorFilter` | jprotobuf-rpc-registry-bns/src/main/java/com/baidu/pbrpc/register/bns/BNSNamingService.java:119-124 | "0,,2" builds the same set as "0,2", namely {0, 2}: the doubled comma adds no empty token and so no 0 |
| `PortResolver.BuildRpcPort` | jprotobuf-rpc-registry-bns/src/main/java/com/baidu/pbrpc/register/bns/BNSNamingService.java:194-206 | the default port when the map is null, or has no entry for the port name; the parse of the entry when it is a decimal `int` |
| `PortResolver.BuildRpcPortFormatted` | jprotobuf-rpc-registry-bns/src/main/java/com/baidu/pbrpc/register/bns/BNSNamingService.java:199-204 | a port written in decimal under the port name is the port chosen, whatever the default |
| `PortResolver.BuildRpcPortOnlyReadsItsEntry` | jprotobuf-rpc-registry-bns/src/main/java/com/baidu/pbrpc/register/bns/BNSNamingService.java:194-202 | two maps with the same entry for the port name give the same port, so the empty-map check makes no difference to the result |
| `PortResolver.RpcPortExamples` | jprotobuf-rpc-registry-bns/src/main/java/com/baidu/pbrpc/register/bns/BNSNamingService.java:194-206 | {"rpc": "8080"} gives 8080; an empty map, a null map and {"other": "80"} give the default 9000 |
| `RegisterInfos.EndpointsLength` | jprotobuf-rpc-registry-bns/src/main/java/com/baidu/pbrpc/register/bns/BNSNamingService.java:168-183 | one endpoint per accepted instance, so never more endpoints than instances |
| `RegisterInfos.EndpointsIncludeAccepted` | jprotobuf-rpc-registry-bns/src/main/java/com/baidu/pbrpc/register/bns/BNSNamingService.java:169-181 | every accepted instance appears, with host equal to its dotted IP and port equal to `buildRpcPort`, at the position given by the number of accepted instances before it |
| `RegisterInfos.EndpointsComeFromAccepted` | jprotobuf-rpc-registry-bns/src/main/java/com/baidu/pbrpc/register/bns/BNSNamingService.java:169-181 | every endpoint in the result is the endpoint of an accepted instance of that rank: nothing else appears |
| `RegisterInfos.RankIncreases` | jprotobuf-rpc-registry-bns/src/main/java/com/baidu/pbrpc/register/bns/BNSNamingService.java:169-181 | an accepted instance ranks strictly below every later one, so the input order is kept |
| `RegisterInfos.NoFilterKeepsAll` | jprotobuf-rpc-registry-bns/src/main/java/com/baidu/pbrpc/register/bns/BNSNamingService.java:171-173 | with a null filter set every instance becomes an endpoint, in order |
| `RegisterInfos.AllRejectedIsEmpty` | jprotobuf-rpc-registry-bns/src/main/java/com/baidu/pbrpc/register/bns/BNSNamingService.java:168-183 | when every instance is rejected there are no endpoints |
| `RegisterInfos.WrapShape` | jprotobuf-rpc-registry-bns/src/main/java/com/baidu/pbrpc/register/bns/BNSNamingService.java:163-184 | null exactly for a null or empty list; otherwise as many endpoints as accepted instances, and the empty list (not null) when all are rejected |
| `BnsNaming.ListSharesOneResult` | jprotobuf-rpc-registry-bns/src/main/java/com/baidu/pbrpc/register/bns/BNSNamingService.java:142-148 | the map's keys are exactly the signatures, and each maps to the same `wrapRegisterInfos` result, null included |
| `BnsNaming.ListPropagatesQueryError` | jprotobuf-rpc-registry-bns/src/main/java/com/baidu/pbrpc/register/bns/BNSNamingService.java:142 | a failed registry query fails the call, with no partial map |
| `BnsNaming.BlankFilterAcceptsAll` | jprotobuf-rpc-registry-bns/src/main/java/com/baidu/pbrpc/register/bns/BNSNamingService.java:119 | a blank (or null) filter string keeps a fresh service's null filter set, which accepts every status |
| `BnsNaming.ExampleEndpoints` | jprotobuf-rpc-registry-bns/src/main/java/com/baidu/pbrpc/register/bns/BNSNamingService.java:168-183 | with filter {0}, the instances (10.0.0.1, status 0, "rpc" 8080) and (10.0.0.2, status 1) give the single endpoint 10.0.0.1:8080 |
| `BnsNaming.ExampleResolution` | jprotobuf-rpc-registry-bns/src/main/java/com/baidu/pbrpc/register/bns/BNSNamingService.java:134-151 | with the default configuration, that reply resolves both "svcA" and "svcB" to [10.0.0.1:8080] |
| `BnsQuery.BnsQueryAgentProxy.GetInstanceByService` | jprotobuf-rpc-registry-bns/src/main/java/com/baidu/pbrpc/register/bns/BNSNamingService.java:155 | returns the registry's reply and logs the query (name, timeout) |
| `BnsNaming.BnsNamingService.constructor` | jprotobuf-rpc-registry-bns/src/main/java/com/baidu/pbrpc/register/bns/BNSNamingService.java:40-51 | the defaults: timeout 3000, no BNS name, port name "rpc", filter string "0", null filter set |
| `BnsNaming.BnsNamingService.SetFilterInstanceStatus` | jprotobuf-rpc-registry-bns/src/main/java/com/baidu/pbrpc/register/bns/BNSNamingService.java:58-60 | sets the filter string and nothing else |
| `BnsNaming.BnsNamingService.SetPortName` | jprotobuf-rpc-registry-bns/src/main/java/com/baidu/pbrpc/register/bns/BNSNamingService.java:67-69 | sets the port name and nothing else |
| `BnsNaming.BnsNamingService.SetBnsName` | jprotobuf-rpc-registry-bns/src/main/java/com/baidu/pbrpc/register/bns/BNSNamingService.java:76-78 | sets the BNS name and nothing else |
| `BnsNaming.BnsNamingService.SetTimeout` | jprotobuf-rpc-registry-bns/src/main/java/com/baidu/pbrpc/register/bns/BNSNamingService.java:85-87 | sets the timeout and nothing else |
| `BnsNaming.BnsNamingService.AfterPropertiesSet` | jprotobuf-rpc-registry-bns/src/main/java/com/baidu/pbrpc/register/bns/BNSNamingService.java:115-126 | fails on a null BNS name, then on a null port name, leaving the filter set untouched; otherwise succeeds and sets the filter set from a non-blank filter string, or leaves it unchanged |
| `BnsNaming.BnsNamingService.List` | jprotobuf-rpc-registry-bns/src/main/java/com/baidu/pbrpc/register/bns/BNSNamingService.java:134-151 | null signatures: an empty map and no query; otherwise exactly one query (even for an empty set), and the signatures all mapped to the wrapped reply, or the query's error |
| `BnsNaming.BnsNamingService.DoGetInstanceList` | jprotobuf-rpc-registry-bns/src/main/java/com/baidu/pbrpc/register/bns/BNSNamingService.java:153-157 | a single query with the configured BNS name and timeout, returning the registry's reply |
| `BnsNaming.BnsNamingService.WrapRegisterInfos` | jprotobuf-rpc-registry-bns/src/main/java/com/baidu/pbrpc/register/bns/BNSNamingService.java:163-184 | the loop with `continue` computes `Wrap` of the configured filter set and port name: null for a null or empty list, otherwise the endpoints of the accepted instances in order |

## Left out

- The registry is not modelled. `proxy.getInstanceByService` is network I/O through a foreign library, so its reply is an input: the proxy's `answer` field. The proxy factory `BNSQueryAgentProxy.proxy()` is not modelled either; the constructor takes the proxy as a parameter. The timeout is only passed through.
- The source of `StringUtils` (`isBlank`, `split`, `toInt`) is not part of this model. It is modelled after the Apache Commons helpers it mirrors. `split` drops empty tokens, so `"0,,2"` has the tokens "0" and "2" (`StatusFilter.DoubledSeparatorFilter`). With `String.split` semantics an empty token would add 0 to the filter set instead.
- `PortResolver.BuildRpcPort`: does not state which port a malformed port entry yields. That is the one-argument `toInt`'s fallback, which is not visible. The body uses `TO_INT_FALLBACK` (0), and no contract depends on that value.
- `Integer.parseInt` also accepts non-ASCII Unicode decimal digits; `StringUtils.ParseInt` accepts ASCII digits only.
- Null keys and null values inside a Java `Map<String, String>` are not modelled. A null port name finds no entry.
- A null element in the registry's instance list is not modelled: `seq<Instance>` cannot hold one. The Java loop would throw a `NullPointerException` when it calls `getStatus` on it (BNSNamingService.java:170).
- A null signature in `serviceSignatures` is not modelled: `set<string>` cannot hold one. The Java `HashMap` would store it as a null key (BNSNamingService.java:146).
- The registry's own `Instance` and the framework's `RegisterInfo` classes are not part of this model. Only the getters and setters that are used (`getDottedIP`, `getStatus`, `getPort`, `getPorts`, `setHost`, `setPort`) are modelled, as record fields.
- Aliasing is not modelled. Every signature's entry in the Java map is the same `ArrayList` object; here the entries are equal values.
- `Assert.notNull`'s exception type and message become the `ConfigError` values. Spring's `InitializingBean` wiring and SLF4J logging are left out.
- The deprecated setters `setMultiPortsSplit` and `setPortSplit` are left out because they do nothing.
- Concurrency is left out: the class has no locking.
