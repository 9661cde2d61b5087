# docker ztd — a Dafny model of the zero-downtime rollout

`docker ztd` is a Docker CLI plug-in. It replaces the containers of one
docker-compose service without dropping traffic. It proceeds in order:

1. It doubles the service with `docker compose up --scale`.
2. It waits until the new containers report healthy.
3. It rewrites the Traefik dynamic configuration so that every server
   URL naming an old container names its new counterpart.
4. It waits for the configured delays.
5. It stops and removes the old containers.

If the new containers do not become healthy, it removes them again
(rollback) and exits with status 1.

The Traefik configuration itself is generated from container labels: the
`traefik.enable` flag, the router rule, the backend port and the
health-check labels.

This project models that behaviour and proves properties of it. Its
modules are:

- `Common`: options, results, container IDs. A `ContainerId` has at least
  12 characters, because the program slices every ID to its 12-character
  short form.
- `GoStrings`: the `strings.Split` and `strings.HasPrefix` semantics the
  program relies on.
- `TraefikTypes`: the routing document (routers, services, load balancers,
  health checks).
- `TraefikGenerate`: `GenerateConfig` and `extractHealthCheck`, from
  container labels to the routing document.
- `TraefikUpdate`: `UpdateConfig`, the old-to-new ID patcher.
- `DockerOps`:
  - the health probe;
  - the polling health gate, with the clock as a round counter;
  - an `Engine` class whose container table is updated in place by
    `StopAndRemoveContainers`.
- `Compose`:
  - `docker compose` command lines;
  - the project name;
  - the wait-for-running loop;
  - `DeployService`, `ScaleService` and `GetServiceContainers`.
- `Cli`: `parseArgs`.
- `Rollout`: `main` after argument parsing. It returns the trace of steps
  it takes, the published configuration and the exit status, and updates
  the engine.

Everything the program asks of the outside world is a parameter:

- the Docker engine's listings, inspections and stop/remove answers;
- the success of each `docker compose` invocation;
- the parsed compose files;
- the JSON and duration parsers;
- the parsed configuration file.

Go map iteration is modelled as a choice of an arbitrary unvisited key. So
every contract holds for every iteration order.

## Model

| member | source | states |
|---|---|---|
| TraefikGenerate.ReadComposeServices | traefik/generate.go:106-123 | Succeeds exactly when every compose file is readable. The result is the union of their service names. On failure it reports the first unreadable file, and all files before it were readable. |
| TraefikGenerate.DeclaredExact | traefik/generate.go:120-122 | A service is declared exactly when some readable compose file lists it. |
| TraefikGenerate.GroupContainers | traefik/generate.go:136-146 | Builds the service-to-containers map that is specified by `Groups`. |
| TraefikGenerate.MembersExact | traefik/generate.go:137-145 | A service's group holds exactly the listed containers whose compose-service label is that service. |
| TraefikGenerate.GroupsAreMembers | traefik/generate.go:136-146 | A service has a group iff its name is non-empty, it is declared, and some container carries it. The group is then its members in listing order. |
| TraefikGenerate.FirstMember | traefik/generate.go:156 | The container whose labels are consulted is the first listed container of the service. |
| TraefikGenerate.BuildServers | traefik/generate.go:183-188 | Produces one server per container of the group, in listing order. |
| TraefikGenerate.ServersLayout | traefik/generate.go:183-188 | There are as many servers as containers. Server k is `http://<short id of container k>:<port>`. |
| TraefikGenerate.RoutersForAdd | traefik/generate.go:225-228 | Handling one more service adds its router exactly when that service is routable, whatever order the services are visited in. |
| TraefikGenerate.RoutingDecision | traefik/generate.go:149-171 | A service gets a router iff it is declared, has containers, and its first container has `traefik.enable=true` and a non-empty rule. The router carries that rule and names the service. |
| TraefikGenerate.HeaderNamesAreKeys | traefik/generate.go:310-313 | Every header name collected from labels comes from a `…healthCheck.headers.<name>` label. |
| TraefikGenerate.IndividualHeadersExact | traefik/generate.go:310-314 | The individual headers are exactly the `…headers.<name>` labels, each with its label's value. |
| TraefikGenerate.ScanForHealthConfig | traefik/generate.go:252-265 | Reports true iff some label key starts with the service's health-check prefix. |
| TraefikGenerate.CollectHeaders | traefik/generate.go:302-315 | Without a parsable JSON `…headers` blob, the result is exactly the individual headers. With one, every blob entry is present, and every entry comes from the blob or from its own label, in any label order. |
| TraefikGenerate.ExtractHealthCheck | traefik/generate.go:251-322 | Returns no block exactly when no label has the prefix. Otherwise each of the ten scalar fields is its label's value ("" when absent), and the headers are as CollectHeaders states. |
| TraefikGenerate.BuildEntry | traefik/generate.go:156-229 | Skips the service iff the first container is not routable. Otherwise it yields the router (rule, service name) and a service with the servers on the labelled or default "80" port. The health check is attached only when some field has a value. |
| TraefikGenerate.BuildEntries | traefik/generate.go:149-229 | Over the grouped services in any map order, the routers are exactly those of RoutingDecision, services and routers have the same names, and each service is its group's BuildEntry result. |
| TraefikGenerate.GenerateConfig | traefik/generate.go:102-248 | Fails iff a compose file is unreadable, and names the first one: every file before it was readable. Otherwise the routers are exactly those of RoutingDecision. Services and routers have the same names, every router names an existing service, and every service has at least one server. |
| TraefikGenerate.SingleHeaderAttached | traefik/generate.go:203-222 | A lone `…headers.<name>` label with no blob always yields an attached health check carrying that header. |
| TraefikGenerate.BlobOrderMatters | traefik/generate.go:303-315 | With a JSON blob, both "blob only" and "blob overlaid by the individual headers" are admissible outcomes. They differ whenever one header label disagrees with the blob, so the result depends on map iteration order. |
| TraefikUpdate.IdMapEntries | traefik/generate.go:340-345 | A short ID is a key iff it is the short form of an old ID at a position that also has a new ID. Its value is the short form of a new ID at such a position. |
| TraefikUpdate.IdMapPositional | traefik/generate.go:340-345 | With distinct old short IDs, old position i maps to new position i. |
| TraefikUpdate.ShortNewListPairsPrefix | traefik/generate.go:341-344 | With old IDs [A, B] (distinct short IDs) and new IDs [C], the map is exactly Short(A) to Short(C): B, having no new partner, is left unmapped. The general statement is IdMapEntries. |
| TraefikUpdate.IdMapValuesFresh | traefik/generate.go:340-345 | When no new short ID is an old short ID, no map value is also a key. |
| TraefikUpdate.RewriteServers | traefik/generate.go:349-367 | Keeps the server count and rewrites each URL by the split-on-"//", split-on-":" rule. |
| TraefikUpdate.UpdateConfig | traefik/generate.go:325-382 | Fails iff the file cannot be read or parsed. Otherwise routers, service names and health checks are unchanged, and every server URL is rewritten with the position-paired ID map. |
| TraefikUpdate.RewriteGenerated | traefik/generate.go:349-366 | A URL produced by GenerateConfig is rewritten exactly when its short ID is mapped, keeping the port. |
| TraefikUpdate.RewriteIdempotent | traefik/generate.go:348-367 | Rewriting twice equals rewriting once, when map values are not keys and contain no ':' or '/'. |
| TraefikUpdate.PatchTwice | traefik/generate.go:325-382 | Patching a patched configuration again with the same map changes nothing, under the same conditions. |
| TraefikUpdate.ChainedIdsAreNotIdempotent | traefik/generate.go:340-366 | When a new ID is also an old ID (old [A,B], new [B,C]), a second patch moves a server again, from B to C. |
| DockerOps.CheckContainerHealth | docker/operations.go:65-77 | Errors iff inspection fails. A container without a health check, or one whose status is "healthy", counts as healthy. |
| DockerOps.WaitForHealthyContainers | docker/operations.go:80-103 | Its result is the health gate: rounds one second apart while before the deadline. Each round probes in order. |
| DockerOps.SweepAllHealthy | docker/operations.go:84-96 | A round is all-healthy iff every container probes healthy. |
| DockerOps.SweepStopsAtFirst | docker/operations.go:85-95 | A round ends at the first container that is unhealthy or fails inspection. |
| DockerOps.GatePasses | docker/operations.go:80-103 | The gate passes iff some round before the deadline is all-healthy and every earlier round saw an unhealthy container. |
| DockerOps.GateTimesOut | docker/operations.go:83-102 | The gate times out iff every round before the deadline saw an unhealthy container and no inspection error. |
| DockerOps.GateCheckFails | docker/operations.go:86-89 | The gate fails on inspection iff some round before the deadline hit an inspection error and every earlier round saw an unhealthy container. |
| DockerOps.EmptyGatePasses | docker/operations.go:83-98 | With no containers and a positive timeout, the gate passes. |
| DockerOps.Engine.Stop | docker/operations.go:110-112 | Succeeds iff the container exists and the engine accepts the stop. Only that container's state changes, to stopped. |
| DockerOps.Engine.Remove | docker/operations.go:115-117 | Succeeds iff the container exists and removal is accepted. Only that container disappears. |
| DockerOps.Engine.StopAndRemoveContainers | docker/operations.go:106-120 | The new container table and the result are those of the teardown function, over the old table. |
| DockerOps.TeardownFrame | docker/operations.go:106-120 | A teardown adds no container and leaves every container outside the list untouched. |
| DockerOps.TeardownSucceeds | docker/operations.go:106-120 | Succeeds iff the IDs are distinct, all present, and neither stop nor remove is refused. It then removes exactly those IDs. |
| DockerOps.TeardownStopsAtFailure | docker/operations.go:108-117 | A failed teardown stops at one position. Earlier containers are removed. Containers not among the IDs up to that position are untouched. |
| Compose.ServiceIdsAreMembers | compose/compose.go:408-414 | The service's IDs are those of its group, as GenerateConfig groups containers, in listing order. |
| Compose.ServiceIdsExact | compose/compose.go:408-414 | An ID is returned iff a listed container with that ID carries the service label. |
| Compose.GetServiceContainers | compose/compose.go:402-418 | Fails iff the listing fails. Otherwise it returns the service's container IDs in listing order. |
| Compose.FlagPairs | compose/compose.go:108-116 | Each value becomes a flag and value pair, in order. |
| Compose.AppendFlagPairs | compose/compose.go:108-116 | Appends the flag pairs of the loop to the arguments built so far. |
| Compose.CommandLayout | compose/compose.go:106-119 | The compose command is "compose", then `-f file` pairs, then `--env-file` pairs, then the sub-command. |
| Compose.BuildStackUpArgs | compose/compose.go:106-119 | The stack-up command always ends with "up", "-d". |
| Compose.BuildLogsArgs | compose/compose.go:197-202 | The logs command carries the compose files but no env files. It ends with "logs", "--follow", "--tail=1". |
| Compose.BuildCreateArgs | compose/compose.go:290-303 | The create command ends with "up", "-d", "--no-recreate" and the service name. |
| Compose.BuildScaleArgs | compose/compose.go:375-386 | The scale command ends with "up --detach --scale svc=N --no-recreate svc". |
| Compose.Digits | compose/compose.go:382 | Decimal rendering gives a non-empty string of digits. |
| Compose.DecimalRoundTrip | compose/compose.go:382 | Parsing the rendered replica count gives the count back, negative counts included. |
| Compose.DigitsRoundTrip | compose/compose.go:382 | Reading the digits of a natural number back gives the number. |
| Compose.ExtIsLastDotSuffix | compose/compose.go:141 | The extension is empty or a suffix starting with '.' that contains no further '.' or '/'. |
| Compose.ExtNoDot | compose/compose.go:141 | A name without '.' has no extension. |
| Compose.ExtAfterDot | compose/compose.go:141 | `stem.ext` has the extension `.ext`. |
| Compose.TrimSuffixJoin | compose/compose.go:141 | Trimming a present suffix and appending it again gives the string back. |
| Compose.LastElementAfterSlash | compose/compose.go:140 | The base of `dir/name` is `name`. |
| Compose.ProjectNamePlusExt | compose/compose.go:137-142 | The project name followed by the extension is the base name of the first compose file. |
| Compose.ProjectNameOfPath | compose/compose.go:137-142 | The project name of `dir/stem.ext` is `stem`. |
| Compose.CheckProjectRunning | compose/compose.go:156-175 | Reports true iff every listed container of the project inspects as running. |
| Compose.WaitForRunning | compose/compose.go:152-186 | Makes 1 to 30 attempts with a sleep between consecutive ones. It is ready iff the last attempt saw everything running, no earlier attempt did, and failure means 30 attempts. |
| Compose.CollectComposeServices | compose/compose.go:219-230 | Succeeds iff every compose file parses, with exactly the declared names. Otherwise it names the first unparsable file: every file before it parsed. |
| Compose.ServiceExists | compose/compose.go:234-245 | Reports true iff the service is among the names. |
| Compose.DeployStack | compose/compose.go:104-214 | If the stack-up command fails, the deploy fails after that one action. If the later listing fails, it succeeds after that one action. Otherwise it succeeds with: the stack-up, a wait of 1 to 30 attempts, a regeneration, then the log-following command exactly when not detached. The wait is the wait-for-running loop: no attempt before the last found every project container running, and a wait shorter than 30 attempts ends at an attempt that did. |
| Compose.DeployOne | compose/compose.go:216-328 | Every branch is stated, failures included. Unreadable compose files, an undeclared service, a failed listing and a failed inspection fail with no action. A first existing container that is exited or created is started; a start failure fails the deploy. Without detach it then follows the logs and fails iff they fail; with detach it regenerates. A first container in any other state only regenerates. With no container, the service is created with `up -d --no-recreate`: an exec failure fails; otherwise it follows the logs (no detach) or regenerates. |
| Compose.DeployService | compose/compose.go:100-328 | "up" behaves exactly as DeployStack, including "fails iff the stack-up command fails". Any other name behaves exactly as DeployOne. |
| Compose.ScaleService | compose/compose.go:371-399 | Fails iff the scale command fails or the later listing fails. Otherwise it returns the service's IDs from the listing after scaling. |
| Cli.SetOption | main.go:216-275 | A duration flag (`-t`, `-w`, `-wa`) fails iff its value with "s" appended does not parse. On success it sets the health-check timeout, the pre-teardown wait or the settling delay respectively. `-tc` and `-p` always succeed and replace the configuration path and the proxy type. `-f` and `-e` append their value. No flag changes the service name. |
| Cli.ParseArgs | main.go:195-295 | Its loop computes the argument walk over the defaults. A parsed result always has a valid proxy type. |
| Cli.EmptyArgsGiveDefaults | main.go:196-203 | No arguments give every default: timeouts 60 s, 10 s and 0 s, "traefik/dynamic_conf.yml", "traefik". |
| Cli.WalkShift | main.go:208-287 | The walk from a position depends only on the arguments from there on. |
| Cli.WalkAppend | main.go:208-287 | Appending arguments continues the walk from where it ended, unless it already stopped. |
| Cli.TimeoutFlagSets | main.go:216-225 | `-t x` after a successful prefix sets exactly the health-check timeout to x seconds, or is fatal when x does not parse. |
| Cli.WaitFlagSets | main.go:227-236 | `-w x` sets exactly the wait before teardown to x seconds, or is fatal when x does not parse. |
| Cli.WaitAfterHealthyFlagSets | main.go:238-247 | `-wa x` sets exactly the settling delay to x seconds, or is fatal when x does not parse. |
| Cli.TraefikConfFlagSets | main.go:249-254 | `-tc x` sets exactly the configuration path to x. A later one overrides an earlier one. |
| Cli.ProxyFlagSets | main.go:256-261 | `-p x` sets exactly the proxy type to x. It is checked only after the loop. |
| Cli.FileFlagAppends | main.go:263-268 | `-f x` after a successful prefix appends x to the compose files. |
| Cli.EnvFlagAppends | main.go:270-275 | `-e x` after a successful prefix appends x to the env files. |
| Cli.FlagValueIsNotService | main.go:216-286 | A flag's value is consumed by the flag. It is never taken as the service name. |
| Cli.TrailingValueFlag | main.go:216-275 | A value-taking flag in last position is fatal: missing value. |
| Cli.UnknownFlagFails | main.go:277-278 | Any other argument starting with '-' is fatal: unknown flag. |
| Cli.SecondServiceFails | main.go:280-284 | A second positional argument is fatal. |
| Cli.ProxyChecked | main.go:289-292 | After the loop, a proxy other than traefik or nginx-proxy is fatal. |
| Cli.UpDashDSplitIsUnknownFlag | main.go:72-73 | `up -d` given as two arguments is rejected, because "-d" is an unknown flag. Only the single argument "up -d" selects a detached stack-up. |
| Rollout.IsOld | main.go:112-118 | Reports true iff the ID is among the old IDs. |
| Rollout.FilterNewContainers | main.go:109-123 | Gives the new IDs that are not old IDs, in order. |
| Rollout.DifferenceExact | main.go:109-123 | An ID survives the filter iff it is new and not old. |
| Rollout.DifferenceAppend | main.go:110-122 | The filter distributes over concatenation. |
| Rollout.AllOld | main.go:109-123 | Filtering only old IDs gives nothing. |
| Rollout.AllFresh | main.go:109-123 | Filtering only fresh IDs keeps them all. |
| Rollout.DifferenceOfScaledListing | main.go:109-123 | If the scaled listing is the old IDs followed by fresh ones, the filter yields exactly the fresh ones. |
| Rollout.Cutover | main.go:127-151 | If the gate fails, it removes the new containers, publishes nothing and exits 1. Otherwise it patches, sleeps (the wait-after-healthy sleep only when positive), tears down the old containers, and exits 0 iff that succeeds. |
| Rollout.RollbackSparesOld | main.go:127-134 | A rollback exits 1, never patches, adds no container and leaves every old container as it was. |
| Rollout.PatchBeforeTeardown | main.go:135-151 | On success the patch is the second step and the teardown of the old containers is the only teardown and the last step. The delays lie in between. |
| Rollout.ScaleAndCutover | main.go:96-151 | A failed old listing exits 1 with no step. Otherwise the service is scaled to exactly twice the current count. A failed scale command or new listing then exits 1 after the scale step, with the engine untouched. Otherwise the scale step is followed by the full cut-over from the old IDs to the filtered new IDs. |
| Rollout.RollingUpdate | main.go:72-151 | "up" or "up -d" runs only the stack deploy, and exits 1 iff the stack-up command fails. A failed listing exits 1 with no step. A service with no container is deployed detached, and the exit follows that deploy's result. A running service is scaled to twice its size and cut over as ScaleAndCutover states. Only the cut-over changes the engine table. |
| Rollout.ScaledServiceIsGated | main.go:102-151 | When the old listing, the scale command and the new listing all succeed, the next step is always the health gate on the filtered new containers. A successful run patches right after the gate and ends with the teardown of the old containers. |
| Rollout.RollingUpdateSparesOld | main.go:96-134 | In a full run, a rollback never stops or removes an old container. |

## Left out

- The Docker engine, `docker compose` processes, the file system, YAML and JSON decoding are parameters. The model receives their answers and does not reimplement them.
- Logging, `printUsage`, `printPluginMetadata` and the `docker-cli-plugin-metadata` entry point are not modelled. They only print.
- Durations are whole seconds. `time.ParseDuration` is a parameter, so fractional durations are not represented.
- The clock is a round counter: one round per second, and inspection takes no time.
- generateTraefikConfig is an opaque `Regenerate` action in deploy traces:
  - `EnsureTraefikDir`, the IP collection (`serviceIPs`, which GenerateConfig never reads) and its errors are not modelled;
  - GenerateConfig itself is modelled on its own.
- YAML marshalling and the file writes after GenerateConfig and UpdateConfig are not modelled, so their write errors are not modelled either.
- The server URL is rewritten in the slice element in place. The model rebuilds the service value, which gives the same document.
- A JSON headers blob of `null` is not distinguished from an unparsable blob. The parser parameter returns a map or nothing. In the program, `null` parses successfully and leaves the headers as a nil map: any `…headers.<name>` label visited after it then panics on the map assignment, and when the blob is visited last the headers are simply dropped. The model instead treats it as an unparsable blob: the blob is ignored and every individual header is kept.
- Stream-logs content and `docker compose logs` output are not modelled; only whether the call succeeded is.
- The `Detach` option is never set by parseArgs. Detachment comes only from the single argument "up -d".
- UpdateConfig: the model patches the parsed document only. The program reads the file into its own configuration structure and writes that structure back. Any key the structure does not declare is dropped from the file on rewrite, such as router entry points and middlewares, or other dynamic-configuration sections. The model's "routers unchanged" holds for the parsed document, not for those file contents.
- Rollout.RollingUpdate: the scale command's effect on the engine is not modelled. Only the teardowns act on the engine table. The gate observes containers through the `inspect` parameter, which is not tied to that table. Listings are separate parameters too.
- Rollout.RollingUpdate: parsing is separate (Cli.ParseArgs). The rollout starts from parsed options and does not re-check the proxy type.
- Rollout.RollingUpdate: the ID arguments to StopAndRemoveContainers are full IDs, as in the program. Short-ID slicing happens only in the patcher.

Behaviour of the program worth knowing:

- The configuration file is written directly, not to a temporary file that is then renamed.
- There is no re-synchronisation of the configuration after the old containers are removed.
- A JSON headers blob replaces the headers collected so far rather than merging with them, so the result depends on label order.
- Patching is proved idempotent when no new short ID is also an old short ID and the new short IDs contain no ':' or '/' (TraefikUpdate.PatchTwice). Hexadecimal Docker IDs always meet the second condition. When an old-to-new chain exists (a new short ID that is another old container's short ID, mapped on to a different ID), patching twice can move a server twice (TraefikUpdate.ChainedIdsAreNotIdempotent).
- "up -d" works only as a single argument.
- The scale target counts the first listing, and the old IDs come from a second listing.
- A failed listing after the stack-up still returns success.
- When a service is created without detach, the logs target is the service name rather than a container ID.
- The configuration is not regenerated on either path that follows logs without detach: after creating the service, and after starting its existing container.
- The wait-for-running loop re-inspects containers from a listing taken once before the loop.
- `GetServiceContainers("")` returns every container without a compose-service label.
