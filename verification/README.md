# turnfly in Dafny

turnfly runs TURN servers on Fly.io. This project models its five stateful parts and
proves what they guarantee over every input, every run and every pattern of failures.

- **Deployment** (`Text`, `FlyTypes`, `FlyJson`, `FlyApi`, `Deployer`, `DeployEffects`,
  `DeployRuns`, `DeployAnswers`, `DeployOutcomes`, `DeployLaws`, `DeployRepeats`, `RegionFlags`,
  `DeployInputs`). The engine that converges the machines of an app to one per region,
  against a remote whose every API call may succeed, fail before its effect, or fail after it. `DeployStep` specifies
  one run, class `Deployer` is the code. A `World` gives the fate of each call, the order in
  which Fly lists machines, and the state a machine is in after an update.
- **Rate limiting** (`RateLimit`, `RateLimitLaws`, `RateLimitWindows`, `RateLimitCleanup`,
  `RateLimitIff`). The token bucket with eviction of idle keys and resets; each place where
  the code reads the clock is a reading of its own.
- **Quotas** (`Integers`, `Totals`, `Quota`, `QuotaLaws`). Allocation counters per user and per IP, and
  the credential window.
- **Relay** (`Frame`, `Session`, `Proxy`, `ProxyLaws`, `SessionLaws`, `SessionHistory`,
  `RelayPair`, `RelayFrames`). The frame codec, sessions and their garbage collection, one
  proxy, and two proxies joined by a tunnel of unreliable datagrams (section 5 of RFC 9221).
- **Credentials** (`Auth`). `expiry:user` usernames (section 2.2 of
  draft-uberti-behave-turn-rest-00) over an arbitrary keyed hash.

Objects that the Go code updates in place are classes; each method is proved against a
`...Step` function of the old state, and the laws are lemmas about runs of those steps.
`dafny verify dfyconfig.toml` checks everything.

## Where the code and its documentation part

The model follows the code. The lemmas give the exact conditions.

- SCOPE.md:490 promises that repeated deploys converge safely. They do, for a region list
  without repetitions (`FlagConvergesIff`). A repeated region gets a machine per mention. With
  a region that is not trimmed, `Deploy` destroys the region's machine and may report it as
  deployed (`UntrimmedReportsDestroyed`); the command line trims, other callers must.
- docs/security.md:86-88 limits each client to a rate and a burst. The defaults it names keep that. A
  limiter whose buckets take longer than ten minutes to refill forgets spent buckets and grants
  more than its rate (`RateEnforcedIff`), and its answers to one client then depend on when others
  call (`KeyIndependentIff`).
- A repeated deploy with no `--env` flag updates every machine each time, because an empty
  map that is not nil never equals what comes back from JSON (`FlagsRepeatQuietIff`).
- The comment at internal/flydeploy/deployer.go:198 speaks of an IPv4 and an IPv6 address; only
  an IPv4 one is ever allocated (`RunPreparesApp`).
- A converged machine keeps the name it has: the name is sent only with an update.
- docs/security.md:72 limits a user to 60 credentials a minute. The fixed window grants up to
  twice the limit less one in any minute, and reaches that (`GrantedBound`, `BoundIsReached`);
  the documented limit holds only for limits of at most one (`KeptPerMinuteIff`).
- docs/relay-mode.md:123 says that idle sessions are removed after their timeout. They are
  gone one collection interval later than that at the latest (`IdleIsCollected`).
- docs/relay-mode.md:122 says that a payload too large is dropped; the proxy does not count it
  as dropped (`Proxies.Proxy.ForwardPacket`).
- `GetStats` can report a meaningless average: the sum of the samples may overflow a 64-bit
  duration (`AverageIsCloseIff`, `AverageCanOverflow`).

## Model

| member | source | states |
|---|---|---|
| Text.TrimIsTrimmed | cmd/turnfly/main.go:869 | trimming takes only white space, only from the two ends, and leaves none there; it changes a string exactly if it had some |
| Text.SpaceIs | cmd/turnfly/main.go:869 | white space is exactly the twenty-five characters of the Unicode property |
| Text.StoppedWords | internal/flydeploy/deployer.go:270 | a state counts as stopped in either case of each letter, and with a long s |
| Text.SplitJoins | cmd/turnfly/main.go:866 | splitting at commas loses nothing and leaves no comma in a part |
| RegionFlags.ParseRegionList | cmd/turnfly/main.go:865-877 | the loop keeps the trimmed non-blank parts in order, and fails if there is none |
| RegionFlags.RegionsAreTrimmed | cmd/turnfly/main.go:865-877 | the regions are trimmed and not blank; the flag is refused exactly when every part is blank |
| RegionFlags.RegionsInOrder | cmd/turnfly/main.go:865-877 | a flag without a comma names its trimmed text or nothing, and flags joined by a comma name the regions of the first and then those of the second: same order, repetitions included |
| RegionFlags.ParseEnvFlags | cmd/turnfly/main.go:879-889 | the loop builds the map flag by flag and stops at the first bad one |
| RegionFlags.EnvParsesIff | cmd/turnfly/main.go:879-889 | the flags parse if and only if each holds an equals sign and does not start with one; otherwise the error names the first that does not |
| RegionFlags.EnvIsLastSet | cmd/turnfly/main.go:879-889 | the keys are those some flag sets, each with the value of the last flag that sets it |
| RegionFlags.EnvFlagRoundTrip | cmd/turnfly/main.go:882-886 | a last flag `k=v` sets `k` to `v`, equals signs in `v` included |
| RegionFlags.EnvEmptyIff | cmd/turnfly/main.go:879-889 | the map is empty exactly when there are no flags, and never nil |
| FlyJson.ConfigRoundTrip | internal/flydeploy/types.go:47-82 | a machine configuration survives JSON if and only if it holds no empty collection that is not nil; its image and guest always do |
| DeployAnswers.GivenAsJson | internal/flydeploy/types.go:47-82 | the request body holds image, guest, services and a non-empty environment under the API's names, and no metadata |
| DeployAnswers.ServicesAsJson | internal/flydeploy/deployer.go:227-247 | the three services of the request body, field by field |
| FlyApi.Client.DoRequest | internal/flydeploy/client.go:258-303 | a request fails with no effect, fails with its effect done, or works |
| FlyApi.Client.GetApp | internal/flydeploy/client.go:61-72 | returns the app if there is one and the request works; a dry run sends nothing |
| FlyApi.Client.CreateApp | internal/flydeploy/client.go:43-58 | creates the app if there is none; a dry run sends nothing |
| FlyApi.Client.ListIPs | internal/flydeploy/client.go:242-255 | returns the app's addresses if the request works |
| FlyApi.Client.AllocateIP | internal/flydeploy/client.go:225-239 | adds one address of the requested type, charged to the given organization |
| FlyApi.Client.ListMachines | internal/flydeploy/client.go:107-118 | returns every machine once, in the order Fly lists them |
| FlyApi.Client.CreateMachine | internal/flydeploy/client.go:88-104 | adds a machine under a fresh id with the configuration as JSON carries it |
| FlyApi.Client.UpdateMachine | internal/flydeploy/client.go:135-152 | replaces name, region and configuration of a machine that exists and keeps its id |
| FlyApi.Client.StartMachine | internal/flydeploy/client.go:155-165 | starts a machine that exists |
| FlyApi.Client.DestroyMachine | internal/flydeploy/client.go:181-191 | removes a machine that exists, and no other |
| Deploy.Deployer.EnsureApp | internal/flydeploy/deployer.go:188-196 | takes the app, or creates it when looking it up failed for any reason |
| Deploy.Deployer.EnsureIPs | internal/flydeploy/deployer.go:199-216 | takes the addresses there are, or allocates one v4 address |
| Deploy.Deployer.Prepare | internal/flydeploy/deployer.go:86-103 | app first, then its address in the organization Fly reports for the app |
| Deploy.Deployer.EnsureMachine | internal/flydeploy/deployer.go:219-285 | updates an existing machine whose configuration differs, starts it if it is then stopped, or creates a missing one |
| Deploy.Deployer.GroupByRegion | internal/flydeploy/deployer.go:118-125 | keeps the last listed machine of each region that is not blank |
| Deploy.Deployer.Sweep | internal/flydeploy/deployer.go:127-135 | tries to destroy the kept machine of every undesired region, swallowing errors; the order does not matter |
| Deploy.Deployer.EnsureMachines | internal/flydeploy/deployer.go:137-147 | ensures the trimmed regions in order, and stops at the first error |
| Deploy.Deployer.Converge | internal/flydeploy/deployer.go:106-147 | lists, sweeps and ensures, as one step |
| Deploy.Deployer.Deploy | internal/flydeploy/deployer.go:52-164 | the whole run: checks, defaults, app, address, machines |
| Deploy.Deployer.Destroy | internal/flydeploy/deployer.go:167-185 | leaves exactly the machines whose removal failed before its effect, or everything if listing failed |
| Deploy.ExistingIsFiled | internal/flydeploy/deployer.go:118-125 | each region's entry is a machine of that region that Fly holds, and no region with a machine lacks one |
| Deploy.SweepOneMore | internal/flydeploy/deployer.go:127-135 | destroying machines one by one in any order amounts to removing a set |
| DeployEffects.DesiredOnWire | internal/flydeploy/deployer.go:222-248 | the desired configuration survives JSON unless its environment is an empty map that is not nil |
| DeployEffects.PortableIsWire | internal/flydeploy/deployer.go:255 | on a remote that holds no empty collections, a machine configured as desired holds exactly what JSON makes of the desired configuration |
| DeployEffects.EnsureEffect | internal/flydeploy/deployer.go:219-285 | under any faults, ensuring a region touches that region only and never gives it a second machine; on success the reported machine is settled and an existing one kept its id |
| DeployEffects.EnsureFromEffect | internal/flydeploy/deployer.go:137-147 | the same for the whole loop, region by region |
| DeployRuns.SweepEffect | internal/flydeploy/deployer.go:112-135 | the sweep takes from an undesired region at most its last listed machine, and exactly that one without failures |
| DeployRuns.RunAnyFaults | internal/flydeploy/deployer.go:52-164 | for regions that are trimmed, not blank and all different, whatever fails: a desired region keeps its machines or gains its first, others only lose machines, machines without region are untouched, and the app gets at most one first address |
| DeployRuns.RunFailureFree | internal/flydeploy/deployer.go:52-164 | for such regions and with the required fields given, a run without failures succeeds, reports a settled machine per region in order, and changes each region in exactly one way |
| DeployAnswers.DeployAnswersGiven | internal/flydeploy/deployer.go:106-149 | for such regions, a run that succeeds, whatever else failed in it, reports for each region in order a new machine, or the one listed last in the region; on the remote each has the given image, guest, environment and the three services, and is running; a machine made or updated is named after its region |
| DeployAnswers.DesiredIsGiven | internal/flydeploy/deployer.go:219-265 | what an existing configuration is compared with is the given image, environment, guest and services, the health port defaulting to 8080 |
| DeployAnswers.VictimIsLastListed | internal/flydeploy/deployer.go:118-135 | the machine taken from an undesired region is the one Fly lists last in it |
| DeployOutcomes.RunFailsIff | internal/flydeploy/deployer.go:63-147 | for such regions, a run fails exactly if a required field is missing or a call other than a destruction fails, and with the first such error; addresses are charged to the organization Fly reports, the more specific first |
| DeployOutcomes.RunIsExact | internal/flydeploy/deployer.go:106-147 | for such regions and any faults, exactly which machines go, stay and come: undesired regions lose their last listed machine unless that call fails before its effect, and regions get a first machine where its creation takes effect, up to the first region with an error |
| DeployOutcomes.RunKeepsOrMakes | internal/flydeploy/deployer.go:219-285 | for such regions and any faults, every machine is as it was, or has the given configuration and its region's name, or was only started |
| DeployOutcomes.RunPreparesApp | internal/flydeploy/deployer.go:86-103 | for such regions and any faults, a run adds at most the given app in the given organization and one v4 address, and a run that succeeds reports them |
| DeployOutcomes.RefusedRunSendsNothing | internal/flydeploy/deployer.go:63-74 | a run with a required field missing sends nothing |
| DeployRuns.AddressGoesToOwner | internal/flydeploy/deployer.go:94-103 | an address is requested at most once, only for an app without one, in the organization that owns the app |
| DeployLaws.DeployConverges | internal/flydeploy/deployer.go:112-149 | for such regions and from any remote with at most one machine per region, one run without failures reaches the described deployment, keeps the machines of kept regions and leaves machines without region alone |
| DeployLaws.RetriesAreSafe | internal/flydeploy/deployer.go:112-149 | after any number of runs under any faults, each with a configuration of its own whose regions are trimmed, not blank and all different, and machines changing state in between, no region has two machines and the app no second address |
| DeployLaws.RetryConverges | internal/flydeploy/deployer.go:112-149 | one run without failures repairs whatever such earlier attempts left |
| DeployLaws.RunsDrain | internal/flydeploy/deployer.go:118-135 | for regions that are trimmed, not blank and all different, each run without failures takes exactly one machine from each undesired region that has one; machines of desired regions are never destroyed |
| DeployLaws.RunsConvergeIff | internal/flydeploy/deployer.go:118-149 | for such regions and from any remote, duplicates included, a positive number of runs without failures reaches the described deployment if and only if no desired region started with two machines and no other with more machines than runs |
| DeployRepeats.RepeatIsQuietIff | internal/flydeploy/deployer.go:223-265 | for such regions, on a converged remote that holds no empty collections, repeating the deploy without failures makes only its three reads and changes nothing, if and only if the environment is not an empty map that is not nil |
| DeployRepeats.RepeatRefreshes | internal/flydeploy/deployer.go:255-265 | there, with an empty environment that is not nil, a repeated deploy updates every deployed machine exactly once with the content it has, and starts those that come back stopped |
| DeployInputs.AlwaysConvergesIff | internal/flydeploy/deployer.go:114-149 | a configuration converges from every fair remote if and only if its regions are trimmed, not blank and all different |
| DeployInputs.FlagConvergesIff | cmd/turnfly/main.go:425-451 | fed by the region flag, that is if and only if the flag names no region twice |
| DeployInputs.ConvergedIsGiven | internal/flydeploy/deployer.go:219-265 | in the described deployment each region has one machine, with the given configuration and not stopped |
| DeployInputs.FlagsRepeatQuietIff | cmd/turnfly/main.go:431-451 | there, fed by the environment flags, a repeated deploy is quiet if and only if there is a flag |
| DeployInputs.UntrimmedReportsDestroyed | internal/flydeploy/deployer.go:127-149 | with one untrimmed region, a run without failures destroys that region's machine and reports it as deployed |
| DeployInputs.DryRunIsHarmless | internal/flydeploy/deployer.go:53-164 | a dry run sends nothing; unless a required field is missing it reports the given app, one v4 address, and for every region in order the machine a real run would ask for |
| RateLimit.Limiter.constructor | internal/ratelimit/ratelimit.go:29-37 | a new limiter has no buckets and cleans up every five minutes |
| RateLimit.Limiter.Allow | internal/ratelimit/ratelimit.go:41-71 | cleanup, then refill, cap and decision, with each clock reading where the code takes it |
| RateLimit.Limiter.MaybeCleanup | internal/ratelimit/ratelimit.go:87-100 | removes exactly the buckets unused for twice the interval, when an interval has passed |
| RateLimit.Limiter.Reset | internal/ratelimit/ratelimit.go:74-78 | forgets one key and no other |
| RateLimit.Limiter.Size | internal/ratelimit/ratelimit.go:81-85 | counts the tracked keys |
| RateLimitWindows.DecisionIsWindowTest | internal/ratelimit/ratelimit.go:41-71 | for a burst of at least one and any rate, cleanup interval, resets and clock readings: a request is allowed if and only if no window of its key's requests that ends with it, and starts no earlier than its bucket was created, would exceed burst plus rate times length; the length leaves out the time between the last two readings of each call |
| RateLimitWindows.FitsInstants | internal/ratelimit/ratelimit.go:58-63 | with one clock reading per call, the length of a window is the time from its first call to its last |
| RateLimitCleanup.CreatesIffLost | internal/ratelimit/ratelimit.go:45-56 | a call creates a bucket if and only if its key never called, or the bucket of its last call was reset, or taken by a cleanup, since: cleanups happen in calls that start an interval or more after the last, and take buckets unused for more than two intervals |
| RateLimitWindows.SameBucketIff | internal/ratelimit/ratelimit.go:49-56 | two calls of a key use the same bucket exactly if neither a reset nor an eviction took it in between |
| RateLimitWindows.NoBurstDecision | internal/ratelimit/ratelimit.go:49-70 | with a burst below one, a request is allowed if and only if it creates its bucket |
| RateLimitWindows.SoundDecisionIsWindowTest | internal/ratelimit/ratelimit.go:41-71 | on orderly traces and with buckets that refill within twice the cleanup interval, only resets end a key's windows |
| RateLimitLaws.EvictionIsReset | internal/ratelimit/ratelimit.go:74-100 | for every configuration, an eviction acts as a reset of the evicted keys just before the call |
| RateLimitLaws.TraceSimulates | internal/ratelimit/ratelimit.go:45-70 | when buckets refill within twice the cleanup interval and hold at least one token, the limiter answers every orderly trace as one that never evicts, from which it differs only in buckets that would be full |
| RateLimitIff.EvictionInvisibleIff | internal/ratelimit/ratelimit.go:87-100 | eviction is invisible on all orderly traces if and only if a bucket refills within twice the interval and holds at least one token |
| RateLimitIff.KeyIndependentIff | internal/ratelimit/ratelimit.go:41-100 | the answers to each key are those it would get if no other key ever called, on all orderly traces, if and only if the same condition holds |
| RateLimitWindows.RateWhileKept | internal/ratelimit/ratelimit.go:57-70 | whatever is evicted, for a burst of at least one and a rate that is not negative, the requests allowed to a key while it keeps its bucket stay within burst plus refill in every window, counted from last reading to last reading with several readings per call |
| RateLimitIff.RateEnforcedIff | internal/ratelimit/ratelimit.go:41-100 | the limiter as coded keeps every window without a reset of the key within its rate, on all orderly traces, if and only if the same condition holds |
| Quota.Tracker.AllowAllocation | internal/quota/quota.go:72-101 | checks the user, then the IP, creates missing entries, and counts in both or in neither |
| Quota.Tracker.ReleaseAllocation | internal/quota/quota.go:104-118 | lowers each of the two counters that is positive |
| Quota.Tracker.AllowCredential | internal/quota/quota.go:122-147 | opens a new window after more than a minute, and counts against the limit |
| QuotaLaws.CredentialGrantedIff | internal/quota/quota.go:122-147 | in every run, a credential is granted if and only if fewer than the limit were granted to the user since its latest window opened: at its first request, or at one more than a minute after the window before; refusals neither count nor move the window |
| Quota.Tracker.ActiveAllocations | internal/quota/quota.go:177-186 | the loop adds up the counters of all users |
| Quota.Tracker.ActiveUsers | internal/quota/quota.go:189-200 | the loop counts the users with a positive counter |
| QuotaLaws.CountersExactIff | internal/quota/quota.go:72-118 | through a run the counters are the projections of one list of live leases if and only if every release is of a live lease or finds both counters at zero |
| QuotaLaws.TrackerRefinesLeases | internal/quota/quota.go:72-200 | in such runs every allocation is decided as the live leases require, both totals count the leases, and the active users are their distinct users |
| QuotaLaws.CountersStayInRange | internal/quota/quota.go:72-118 | for limits that are not negative, whatever is released, every counter stays between zero and its limit |
| QuotaLaws.ReleaseBalancesIff | internal/quota/quota.go:104-118 | a release keeps the user total and the IP total equal if and only if it lowers both or neither |
| QuotaLaws.GrantedBound | internal/quota/quota.go:122-147 | for a limit of at least one and every positive m, any m minutes grant a user at most max times (m + 1), less one, credentials |
| QuotaLaws.BoundIsReached | internal/quota/quota.go:122-147 | for a limit of at least one and every positive m, max times (m + 1), less one, credentials are granted within an interval as little longer than m - 1 minutes as one likes |
| QuotaLaws.KeptPerMinuteIff | internal/quota/quota.go:132-140 | no minute exceeds the limit if and only if the limit is at most one |
| Frames.PutBigEndian | internal/relay/frame.go:79-94 | writes a number after the bytes already written |
| Frames.Encode | internal/relay/frame.go:71-100 | fills a fresh buffer with header and payload, or refuses a payload over 1200 bytes |
| Frames.DecodeFrame | internal/relay/frame.go:104-142 | reads the fields of a buffer, with the three errors in order |
| Frames.FrameRoundTrip | internal/relay/frame.go:71-142 | decoding an encoded frame followed by anything gives it back with its timestamp as the wire carries it; encoding fails exactly over 1200 bytes |
| Frames.TimestampRoundTripIff | internal/relay/frame.go:91-128 | the wire rounds a timestamp down to microseconds if and only if those fit in 64 bits |
| Frames.FrameCanonicity | internal/relay/frame.go:104-142 | exactly the buffers with the right magic and enough bytes decode, and they encode back to the same bytes, unless the payload is one the encoder refuses |
| Frames.EncodedLayout | internal/relay/frame.go:71-100 | where each field of an encoded frame lies, byte by byte, from the magic `TURN`; payloads encode up to 1200 bytes |
| Frames.DecodedLayout | internal/relay/frame.go:104-142 | which of the three errors each buffer gives, and what is read from which bytes otherwise |
| Frames.EncodingIsInjective | internal/relay/frame.go:71-100 | frames with equal encodings are equal up to microseconds |
| Sessions.Session.IsExpired | internal/relay/session.go:39-44 | idle for longer than a positive timeout |
| Sessions.Session.RecordPacketIn | internal/relay/session.go:52-56 | counts one packet and its bytes in, and touches the session |
| Sessions.Session.RecordPacketOut | internal/relay/session.go:59-63 | counts one packet and its bytes out, and touches the session |
| Sessions.Manager.Create | internal/relay/session.go:86-104 | registers a new session with empty counters under the id |
| Sessions.Manager.Close | internal/relay/session.go:115-125 | marks the session closed if there is one |
| Sessions.Manager.GC | internal/relay/session.go:154-166 | removes exactly the sessions expired when their turn comes, with a clock reading for each, and returns how many |
| Proxies.Proxy.HandleDatagram | internal/relay/proxy.go:139-174 | a datagram that decodes is counted in the totals and in its session, created if missing, and gives one sample; any other changes nothing |
| Proxies.Proxy.Receive | internal/relay/proxy.go:95-100 | a datagram that cannot be handled counts as dropped |
| Proxies.Proxy.ForwardPacket | internal/relay/proxy.go:108-136 | sends the encoded frame, and counts it in the totals and in its session only if it went out |
| Proxies.Proxy.Tick | internal/relay/proxy.go:74-78 | one collection of expired sessions |
| Proxies.Proxy.GetStats | internal/relay/proxy.go:195-216 | the totals, the number of sessions, and the average that 64-bit addition and truncation give |
| ProxyLaws.SessionAccountsExact | internal/relay/proxy.go:139-158 | for every session id, live and collected counts together are exactly what the received datagrams brought, in packets and in bytes |
| ProxyLaws.ProxyConservation | internal/relay/proxy.go:95-158 | every datagram received is counted in a live session, a collected one, or as dropped; bytes received are the sessions' frames plus trailing bytes, which are none exactly if no datagram has any |
| ProxyLaws.SamplesAreLastMeasured | internal/relay/proxy.go:161-167 | the samples are the last hundred measured, in order |
| ProxyLaws.SinceIs | internal/relay/proxy.go:161 | a round-trip time is measurement minus stamp, cut off where 64 bits end |
| ProxyLaws.AverageIsTruncated | internal/relay/proxy.go:206-213 | if the sum of the samples fits in 64 bits, the average times their number is the sum in milliseconds without its fraction |
| ProxyLaws.AverageIsCloseIff | internal/relay/proxy.go:206-213 | the reported average is within one millisecond over the number of samples of their mean, if and only if their sum fits in 64 bits |
| SessionLaws.AverageCanOverflow | internal/relay/proxy.go:206-213 | two datagrams after which every sample is the longest duration and the average is zero |
| SessionLaws.BusyIsKept | internal/relay/session.go:39-63 | a session with traffic at least once per timeout is never collected, and its own counters are those of all it received |
| SessionLaws.IdleIsCollected | internal/relay/proxy.go:74-78 | with collections at most a gap apart, a session is gone one timeout and one gap after its last packet |
| SessionHistory.NoTimeoutKeeps | internal/relay/session.go:39-44 | with a timeout of zero or less no session is ever collected |
| SessionHistory.SessionOpening | internal/relay/proxy.go:148-157 | a live session was opened by a frame for its id that found none, at that frame's time, with the tunnel's peer and the proxy's timeout |
| SessionHistory.SentAccountsExact | internal/relay/proxy.go:126-133 | live and collected sent counts together are exactly what went out under the id while a session was there |
| RelayPair.RelayIsExact | internal/relay/proxy.go:108-174 | in every run of two proxies, what the receiver ever counted for a session, what is on its way and what was lost add up to what the peer forwarded; no other session exists, nothing is dropped, and the bytes agree |
| RelayFrames.OutgoingDecodes | internal/relay/proxy.go:108-123 | exactly the packets of up to 1200 bytes that the tunnel takes go out, and each decodes to its own session, flow, direction, payload and time |
| RelayFrames.RelayIsFaithful | internal/relay/proxy.go:108-174 | in every run of two proxies, the frames received, on their way and lost are exactly the frames sent, each as often; every one received has the five fields of a packet the peer forwarded |
| Auth.IntRoundTripIff | internal/auth/validate.go:38-41 | a printed integer parses back if and only if it fits in 64 bits |
| Auth.DigitsAreDecimal | internal/auth/auth.go:21 | integers print in decimal, the most significant digit first |
| Auth.ParseIntIff | internal/auth/validate.go:38-41 | exactly an optional sign and decimal digits parse, if the value fits in 64 bits |
| Auth.UsernameRoundTrip | internal/auth/validate.go:32-48 | a username gives back its user, colons included, up to its expiry and not after; an empty user never |
| Auth.CredentialLifetime | internal/auth/auth.go:19-24 | generated credentials validate for their whole validity, and never a second or more after it |
| Auth.StampIsExpiry | internal/auth/auth.go:19-24 | a generated username carries the second in which it expires, a colon and the user, and the pair validates until that second is over |
| Auth.ValidatesIff | internal/auth/validate.go:15-48 | exactly the unexpired `expiry:user` names with the password the secret gives validate |

## Left out

- The remote holds one app, and every run names it; other apps are not modelled.
- The remote is assumed to refuse to create an app that exists, and to refuse every other request
  when there is no app, or no machine with the id it names.
- Fly is assumed to list every machine, to keep configurations as they arrive in JSON (so with no
  empty collection), to create machines in state `created`, and to start them into `started`.
- Within one run, two requests with the same target (two creations for a region listed twice)
  meet the same fate.
- Health polling and `WaitForMachine`: they change nothing on the remote and only log errors.
- Error texts, logging, HTTP handlers, middleware, command-line commands, the container image build.
- `ipQuota` has one counter, so the map of IPs holds the counters themselves; two keys cannot share one.
- The second reset of `lastCredential` (internal/quota/quota.go:143-145): the branch cannot be
  reached, since the first one has already set it.
- `AllowBandwidth`, `regions.Store`, the health aggregate and configuration validation.
- A packet, a receive and a collection are atomic: data races between forwarding and receiving are not modelled.
- Session and proxy counters are unbounded; the code wraps at 64 bits.
- Tokens, times and averages are reals or integers; IEEE rounding is not modelled.
- QUIC, TLS and certificates: the tunnel is a lossy, reordering channel that does not invent or repeat.
- HMAC-SHA1 and base64: the keyed hash is any function, and nothing is claimed about its strength.
- JSON replaces invalid UTF-8; strings are taken to be valid.
