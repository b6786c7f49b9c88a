# Hexe core: verified models

This project models the parts of the Hexe core backend whose behaviour is hard to see from any one function, and
proves what they keep over whole runs. `dafny verify dfyconfig.toml` checks all of it.

The supervisor is the main part. A tick of `reconcile_one` compares the desired state with the runtime record, the
`current` link, the version directories, the extraction marker and a cached compose file. `Reconciler.dfy` says what a
tick does as a function: it returns every state the addon directory passes through, with a fault allowed at any
file-system step and docker and tar free to fail. `AddonDirectory.dfy` is the same tick as an object updated in place,
method by method, and each method is proved to do exactly what the function says. The theorems about runs
(`SupervisorRuns.dfy`, `ExtractionCache.dfy`, `ComposeCache.dfy`, `Convergence.dfy`, `Retention.dfy`) are proved about
the function, so they hold of the object; `Witnesses.dfy` gives concrete runs of the surprising kind. `TickRecords.dfy`
says field by field what a tick records, reports and runs, and `ComposeContents.dfy` line by line what it hands to docker.

The other files follow the same pattern, one component each: the compose printer with its line parser
(`ComposeFile.dfy`, `ComposeFixpoint.dfy`), URL rewriting in proxied bodies (`Rewriting.dfy`), legacy redirects over
percent-encoded paths (`Percent.dfy`, `Redirects.dfy`), the operator's session cookie (`Base64Url.dfy`,
`SessionCookie.dfy`), the two rate limiters (`RateLimits.dfy`, `LimiterThreads.dfy`), the addon proxy's circuit breaker
(`CircuitBreaker.dfy`), the MQTT supervision loop (`MqttSupervision.dfy`), the cached addon list (`ListCache.dfy`), the
traffic breakdown by device (`Traffic.dfy`) and the node warnings (`NodeWarnings.dfy`). `Text.dfy` and `Utf8.dfy` hold
the string operations they share.

Calls the model cannot see into become parameters: docker, tar, the clock, the nonce, health checks and published
notifications are whatever the caller supplies. SHA-256 of the compose inputs and of artifacts is taken to be injective;
the cookie signature is any function of secret and payload.

## What the code does that its names do not promise

Each of these is proved, with the exact condition under which it happens.

- `ExtractionCache.ExtractionExact`: `rmtree(ignore_errors=True)` may leave files behind. The refreshed tree is the
  artifact's if and only if nothing was left that the archive does not overwrite; the marker is written either way.
- `ComposeCache.HandedFreshExactly`, `ComposeCache.StaleAfterStop`: a stop tick forgets the compose digest, so the
  start after it can hand docker a compose file printed from older settings. The first lemma says exactly when the file
  handed over is fresh, the second gives a family of runs in which it is not.
- `Convergence.Converges`, `Convergence.RevertAfterCrash`: a crash between moving `current` and writing the record can
  leave them apart. If the recorded version is then wanted again, the no-op branch takes the record's word and `current`
  stays wrong for ever; otherwise the next tick in which everything works puts it right.
- `SupervisorRuns.EventsExactly`, `SupervisorRuns.UpdateLostAfterCrash`: the update event compares records, not links. In
  such a directory a start can move `current` without any event.
- `ComposeCache.StopSpendsForceRebuild`: a stop tick with a force rebuild counts it as carried out, so the start after it
  does not rebuild.
- `Convergence.RestsExactlyWithRevision`: a running addon is left alone by later ticks if and only if its revision is not
  blank. `Convergence.StopRepeats`: a stopped one is taken down again at every tick.
- `Rewriting.IdempotentExactly`: rewriting twice equals rewriting once for all texts if and only if the proxy prefix falls
  under one of the ignored prefixes.
- `Redirects.RedirectsSettle`: a second redirect is taken exactly for a node called `ui` on the API base and for a blank
  node id on the UI routes.
- `SessionCookie.SessionRoundTrip`: with an admin token outside ASCII a request with a valid cookie fails too, since the comparison raises.
- `SlidingWindow.BoundedExactly`: which windows of time a limiter really bounds. For the deque limiter a window of exactly
  a minute with both ends in can hold more than the limit.
- `LimiterThreads.BoundedExactlyAlone`: the onboarding limiter holds no lock and two of its callers run in worker threads.
  It bounds its windows if and only if no two attempts of a key overlap; admissions that did not overlap are always
  bounded.
- `CircuitBreaker.UiStaysShut`: once a registered addon's circuit has opened, UI requests alone never reach it again,
  because the health status set on opening is only cleared by a success or a health report.
- `ListCache.FreshAfterInvalidation`, `ListCache.LateStoreHides`: the addon list is served from worker threads. A list
  merged before an invalidating change and stored after it is served for another ten seconds.
- `MqttSupervision.RaisedWarningRepeats`: a warning whose call raises after delivering it is delivered again by the next
  pass.
- `ListCache.UpsertShowsAfterExpiry`: a checked registration does not invalidate the list.
- `NodeWarnings.ImprovesExactlyWhen`: a node's effective health can get better with no new report: exactly when it had
  itself reported `offline` and that report turns stale, which makes it `degraded`.

## Model

| member | source | states |
|---|---|---|
| AddonDirectory.Supervisor.ReconcileOne | core/backend/hexe_supervisor/main.py:266-535 | One tick on the object, from the desired state read to the record written, goes through exactly the states of the specification and reports its result; without a desired state it does nothing. |
| AddonDirectory.Supervisor.TryStart | core/backend/hexe_supervisor/main.py:326-497 | The start branch up to the moved link: the no-op branches, or prepare, launch, activate, stopping at the first exception. |
| AddonDirectory.Supervisor.StopAddon | core/backend/hexe_supervisor/main.py:293-324 | The stop branch: `down` on the recorded files if there are any, then the stopped record; a failure leads to the error record. |
| AddonDirectory.Supervisor.PrepareVersion | core/backend/hexe_supervisor/main.py:414-490 | Missing artifact raises; otherwise extraction, the reasons to unlink the compose file, and the compose file, in that order. |
| AddonDirectory.Supervisor.UnlinkStaleCompose | core/backend/hexe_supervisor/main.py:448-479 | Unlinks the cached compose file for a due force rebuild, a changed recorded digest, or a missing service, and for nothing else. |
| AddonDirectory.Supervisor.EnsureExtracted | core/backend/hexe_supervisor/docker_compose.py:105-143 | Extraction step by step, refreshed when the marker does not hold the artifact's hash. |
| AddonDirectory.Supervisor.EnsureComposeFiles | core/backend/hexe_supervisor/docker_compose.py:146-225 | Prints the compose file unless an existing one has the current restart policy and no stale mount; a bad port raises. |
| AddonDirectory.Supervisor.ComposeUp | core/backend/hexe_supervisor/main.py:492-496 | `build` first on a version change or a due force rebuild, then `up` with the base file in place at that moment. |
| AddonDirectory.Supervisor.ActivateCurrentSymlink | core/backend/hexe_supervisor/main.py:39-46 | Removes a leftover next link, makes the new one, and replaces `current` in one step. |
| AddonDirectory.Supervisor.FillKeepSet | core/backend/hexe_supervisor/main.py:98-101 | The loop grows the keep set exactly as the recursive definition: newest first until it is full. |
| AddonDirectory.Supervisor.DeleteOutside | core/backend/hexe_supervisor/main.py:103-108 | The loop deletes every listed directory outside the keep set that can be deleted, and lists their names. |
| AddonDirectory.Supervisor.CleanupOldVersions | core/backend/hexe_supervisor/main.py:90-116 | The directories left, the keep set and the pruned names are those of the specification. |
| AddonDirectory.Supervisor.RunPostReconcileHooks | core/backend/hexe_supervisor/main.py:250-263 | Prunes only after a tick that ends running without error, and emits the event of the result. |
| TickRecords.StartRecords | core/backend/hexe_supervisor/main.py:499-514 | A start that is carried out records the wanted version, the one `current` pointed at before as previous, and offers a rollback if and only if there was one and it is another. |
| TickRecords.StartRecordsDigest | core/backend/hexe_supervisor/main.py:436-446 | The digest it records is that of its own settings and of the tree it leaves. |
| TickRecords.StartRecordsGroups | core/backend/hexe_supervisor/main.py:286-519 | It records the wanted groups once each in order, tells those with a file in the extracted tree from the others, and puts the base file and theirs in use. |
| TickRecords.StartCommands | core/backend/hexe_supervisor/main.py:487-496 | Its docker commands are a build, exactly when the recorded version changed or a force rebuild is due, and `up` on the recorded files with the base file in place. |
| TickRecords.StopRecords | core/backend/hexe_supervisor/main.py:293-324 | A stop that is carried out runs one `down` on the files to stop, if any, and records no version and no rollback. |
| TickRecords.StopTakesDown | core/backend/hexe_supervisor/main.py:293-310 | Those files are the ones recorded that are not blank, else the current version's base file, else none. |
| TickRecords.FailureRecords | core/backend/hexe_supervisor/main.py:523-534 | A failed tick leaves `current` and records the message, and offers a rollback if and only if `current` points at anything. |
| TickRecords.ResultSays | core/backend/hexe_supervisor/main.py:187-211 | Every result repeats the record on file, and says changed exactly when state, active or previous version differ from the record before. |
| TickRecords.NoopExactly | core/backend/hexe_supervisor/main.py:327-413 | A start is a no-op exactly when the record runs the wanted version at the wanted nonblank revision with no force rebuild still due. |
| TickRecords.DigestPins | core/backend/hexe_supervisor/main.py:128-142 | Two compose digests are equal if and only if addon id, ports, binding, limits, network, groups and primary service are. |
| TickRecords.PrimaryIs | core/backend/hexe_supervisor/main.py:176-184 | The base file provides the one service that the group files name without an image or build, and the addon's own when none or several do. |
| SupervisorRuns.EventsExactly | core/backend/hexe_supervisor/main.py:187-247 | An update event means exactly that the tick moved `current` from one version to another, a failure event exactly that it left an error record, and a start event that the link did not move away from another version: true of a tick if and only if it is not a start whose outcome the record had foretold. |
| SupervisorRuns.HonestEvents | core/backend/hexe_supervisor/main.py:187-247 | Where the record agrees with the link, every event means what it says. |
| SupervisorRuns.UpdateLostAfterCrash | core/backend/hexe_supervisor/main.py:195-231 | The run in which an update is lost: a start of the previous version crashes with the link moved, the running one is started again, and no event is emitted. |
| SupervisorRuns.CrashLeaves | core/backend/hexe_supervisor/main.py:497-534 | A crash after the link moved leaves the old record beside the new link. |
| SupervisorRuns.RollbackHonesty | core/backend/hexe_supervisor/main.py:250-535 | Over every run of ticks and hooks with any failures: an available rollback names a version whose directory is there; a running record names the target of `current`, different from the rollback target. |
| SupervisorRuns.CrashSafety | core/backend/hexe_supervisor/main.py:492-497 | Through any ticks and crashes at any step: `current` is absent or names a version whose `up` had succeeded, and once present it is never absent again. |
| SupervisorRuns.TickSafe | core/backend/hexe_supervisor/main.py:266-535 | Inside one tick no version directory disappears, the docker log only grows, the link moves only to a launched version, and the record left agrees with the link. |
| SupervisorRuns.ResultIsRecord | core/backend/hexe_supervisor/main.py:187-211 | A result that says running carries the active and previous version of the record on file. |
| SupervisorRuns.HooksKeepHonest | core/backend/hexe_supervisor/main.py:250-263 | Pruning after a tick never breaks what the record promises about directories. |
| Retention.KeepVersions | core/backend/hexe_supervisor/main.py:62-70 | The retention setting is never below two, whatever the environment says. |
| Retention.KeepVersionsExactly | core/backend/hexe_supervisor/main.py:62-70 | Three when unset, blank or not a number; a number is taken, but not below two. |
| PostReconcile.HooksPrune | core/backend/hexe_supervisor/main.py:250-263 | After a tick that ran well the hooks leave as many directories as the limit allows, counting those in use, which stay; after any other tick they change nothing. |
| PostReconcile.HooksKeepNewest | core/backend/hexe_supervisor/main.py:90-108 | Of the directories not in use the newest stay. |
| Retention.CleanupProtects | core/backend/hexe_supervisor/main.py:90-116 | Cleanup never removes or changes the active or previous version, with any listing and any failing deletes. |
| Retention.RetentionSize | core/backend/hexe_supervisor/main.py:90-116 | With working deletes exactly the keep set stays, at most `keep_versions` directories, and something goes only if the keep set is full. |
| Retention.RetentionAge | core/backend/hexe_supervisor/main.py:73-108 | Every kept unprotected directory is at least as new as every pruned one. |
| ExtractionCache.ExtractHonest | core/backend/hexe_supervisor/docker_compose.py:105-143 | With removal working, the marker never lies at any step, and a normal return leaves the tree of the current artifact. |
| ExtractionCache.ExtractionExact | core/backend/hexe_supervisor/docker_compose.py:116-127 | When nothing raises, the tree is the artifact's if and only if removal left no file the archive does not overwrite. |
| ExtractionCache.MarkersNeverLie | core/backend/hexe_supervisor/docker_compose.py:105-143 | In every state of every run with tar failures and crashes, a marker with hash h sits in a full extraction of h. |
| ComposeCache.HandedFreshExactly | core/backend/hexe_supervisor/main.py:436-496 | The base file handed to `up` was printed from the current settings exactly when a guard fired or the cached file already came from them. |
| ComposeCache.CacheAgreement | core/backend/hexe_supervisor/main.py:360-508 | Through a stretch of good start ticks at one version that begins without a compose file: no command before the first start, and from then on every file handed over was printed from settings with that tick's digest, which is the one recorded. |
| ComposeCache.StretchAgrees | core/backend/hexe_supervisor/main.py:360-508 | The agreement of record, digest and file is kept by every further tick of the stretch and its hooks. |
| ComposeCache.StopForgets | core/backend/hexe_supervisor/main.py:309-324 | A stop leaves every version directory as it was and a record without version, digest or rollback. |
| ComposeCache.StopForgetsDigest | core/backend/hexe_supervisor/main.py:455-461 | After a stop, a start with only the network changed hands docker the old file. |
| ComposeCache.StaleAfterStop | core/backend/hexe_supervisor/main.py:293-508 | The same as a run: stop, change the network, start at the same version. |
| Witnesses.StaleAfterStopHappens | core/backend/hexe_supervisor/main.py:293-508 | A concrete such run, from a directory holding one fetched version. |
| Witnesses.RevertAfterCrashHappens | core/backend/hexe_supervisor/main.py:360-386 | A concrete run of `Convergence.RevertAfterCrash`, from a directory whose record and link agree. |
| Witnesses.UpdateLostHappens | core/backend/hexe_supervisor/main.py:195-231 | A concrete run of `SupervisorRuns.UpdateLostAfterCrash`, from such a directory. |
| ComposeCache.StopSpendsForceRebuild | core/backend/hexe_supervisor/main.py:320-339 | The start after a completed stop rebuilds if and only if it is forced and the stop was not forced for the same revision. |
| ComposeCache.PrintedPinsNetwork | core/backend/hexe_supervisor/docker_compose.py:188-205 | Equal compose texts name equal networks. |
| Convergence.Converges | core/backend/hexe_supervisor/main.py:266-535 | From any prior record and any link, one tick in which everything works records and reports the desired state and version; `current` is then at that version if and only if the record did not already stand for it with the link elsewhere. |
| Convergence.HonestConverges | core/backend/hexe_supervisor/main.py:266-535 | Where the record agrees with the link, `current` always ends at the wanted version. |
| Convergence.RevertAfterCrash | core/backend/hexe_supervisor/main.py:360-386 | The run that leaves the link behind: a start of another version crashes before its record, the first version is wanted again, and every later tick reports it running, issues no command and leaves `current` at the other. |
| Convergence.SettledTick | core/backend/hexe_supervisor/main.py:360-413 | A tick on a settled directory leaves record, link and docker log alone, reports no change and emits nothing. |
| Convergence.StaysSettled | core/backend/hexe_supervisor/main.py:360-413 | So does any number of them, with outside writes between. |
| Convergence.ConvergesThenRests | core/backend/hexe_supervisor/main.py:326-413 | One working tick from any record and link, then quiet for ever, with or without force rebuild; `current` rests at the wanted version if and only if it was in order. |
| Convergence.RestsExactlyWithRevision | core/backend/hexe_supervisor/main.py:327-413 | The next tick issues a docker command if and only if the revision is blank. |
| Convergence.StopRepeats | core/backend/hexe_supervisor/main.py:293-310 | Every later stop tick runs `down` again on the same files. |
| ComposeFile.ComposeServiceBuildFlags | core/backend/hexe_supervisor/main.py:145-173 | The parser's loop computes the flags of the line-by-line definition. |
| ComposeFile.PrinterParserAgree | core/backend/hexe_supervisor/docker_compose.py:163-205 | Parsing the printed text gives exactly the service with a build, for every proper name and one-line values. |
| ComposeFile.KeyDecides | core/backend/hexe_supervisor/main.py:145-173 | A service of a group file has something to run exactly when its line is an image or a build. |
| ComposeFile.LinesApart | core/backend/hexe_supervisor/main.py:154 | A line ends at any line break, and a carriage return with its line feed is one. |
| ComposeFile.SplitUnlines | core/backend/hexe_supervisor/main.py:154 | Splitting lines undoes joining them, when none contains a break. |
| ComposeContents.PortsPublished | core/backend/hexe_supervisor/docker_compose.py:163-176 | The printed ports section has a line for every port with two ends and no other: `127.0.0.1` or `0.0.0.0` as the setup says, then host port, container port and protocol. |
| ComposeContents.FirstStartPublishes | core/backend/hexe_supervisor/docker_compose.py:163-219 | A start that finds no compose file hands docker one that publishes each port of its own desired state so. |
| ComposeContents.KeptOrPrinted | core/backend/hexe_supervisor/main.py:448-479 | A start leaves a compose file that no guard speaks against as it is, and prints any other from its own desired state. |
| ComposeContents.StateMounted | core/backend/hexe_supervisor/docker_compose.py:182-187 | The desired and runtime state are mounted writable, the compose file itself read-only. |
| ComposeContents.Confined | core/backend/hexe_supervisor/docker_compose.py:188-195 | The service is neither privileged nor able to gain privileges. |
| ComposeContents.EnvironmentAndNetwork | core/backend/hexe_supervisor/docker_compose.py:196-199 | It runs with its environment file and on its network. |
| ComposeContents.NetworkDeclared | core/backend/hexe_supervisor/docker_compose.py:202-204 | The network is declared under its own name. |
| ComposeContents.PolicyNames | core/backend/hexe_supervisor/docker_compose.py:13-16 | The four restart policies by their names. |
| ComposeContents.LimitsSet | core/backend/hexe_supervisor/docker_compose.py:177-180 | CPU and memory limits are printed exactly when they are set. |
| ComposeContents.HandedHasService | core/backend/hexe_supervisor/main.py:463-496 | Whatever file a start hands over provides the service it is about. |
| ComposeContents.HandedPolicy | core/backend/hexe_supervisor/docker_compose.py:206-219 | And names the restart policy in force, with no stale state mount. |
| ComposeContents.NoopRefreshesPolicy | core/backend/hexe_supervisor/main.py:353-413 | A no-op tick brings a file with an always-restarting policy up to the policy in force. |
| ComposeFixpoint.EnsureIsFixpoint | core/backend/hexe_supervisor/docker_compose.py:206-219 | A second call with the same arguments leaves the file alone. |
| ComposeFixpoint.RenderFree | core/backend/hexe_supervisor/docker_compose.py:182-210 | Values free of a stale mount text give a file free of it: the printed mounts never look stale. |
| ComposeFixpoint.RenderNamesPolicy | core/backend/hexe_supervisor/docker_compose.py:188-211 | The printed file always names its own restart policy. |
| Rewriting.RewritesOnce | core/backend/app/reverse_proxy.py:153-184 | One rewrite inserts the prefix at most once before each quoted URL, and leaves neither pass anything to do. |
| Rewriting.RewriteIdempotent | core/backend/app/reverse_proxy.py:135-184 | Rewriting a rewritten body of any content type changes nothing; what one rewrite does is in the next rows. |
| Rewriting.RewriteByType | core/backend/app/reverse_proxy.py:143-184 | By its content type a body is rewritten in both passes, in the string pass, or not at all; prefixes are only inserted, and nothing of that kind is left to prefix. |
| Rewriting.UndecodedUntouched | core/backend/app/reverse_proxy.py:148-151 | Bytes that are not UTF-8 are passed on as they are. |
| Rewriting.QuotedPathMoved | core/backend/app/reverse_proxy.py:155-183 | A quoted rooted path gets the prefix, trailing slashes off, unless it is the root or at or below an ignored prefix. |
| Rewriting.AttributeMoved | core/backend/app/reverse_proxy.py:64-175 | The value of src, href or action does too in HTML, even where no matching quote closes it. |
| Rewriting.WordBoundaryHolds | core/backend/app/reverse_proxy.py:64 | A longer word that only ends like one of these is no attribute. |
| Rewriting.IdempotentExactly | core/backend/app/reverse_proxy.py:155-184 | Idempotence on all texts holds if and only if the prefix falls under an ignored prefix. |
| Rewriting.AddonPrefixesSelfIgnore | core/backend/app/addons/proxy.py:362-368 | Both forms of addon prefix meet that condition, for every id without a quote. |
| Rewriting.StableUnderInsertion | core/backend/app/reverse_proxy.py:64-182 | Inserting prefixes keeps both scanners aligned. |
| Rewriting.AttrPassStable | core/backend/app/reverse_proxy.py:64-175 | After the attribute pass no attribute value is left to rewrite. |
| Rewriting.StringPassStable | core/backend/app/reverse_proxy.py:65-183 | After the string pass no quoted path is left to rewrite. |
| Utf8.RoundTrip | core/backend/app/reverse_proxy.py:149-184 | Encoding and strict decoding are inverse on every text. |
| Utf8.DecodesExactly | core/backend/app/reverse_proxy.py:148-151 | Bytes decode if and only if some text encodes to them, and then to that text. |
| Percent.QuoteRoundTrip | core/backend/app/proxy_routes.py:21-26 | The server's decoding undoes `quote`, for every text and every safe set without the percent sign. |
| Percent.PlainStays | core/backend/app/proxy_routes.py:21-26 | Unreserved and safe characters are quoted as they are. |
| Percent.OthersEscaped | core/backend/app/proxy_routes.py:21-26 | Any other character becomes one escape for each byte of its UTF-8. |
| Percent.HexAre | core/backend/app/proxy_routes.py:21-26 | Escapes are written in upper case and read in either. |
| Redirects.RedirectsSettle | core/backend/app/proxy_routes.py:58-82 | From any path at most two redirects are followed, and a second one exactly in the two cases named. |
| Redirects.MiddlewareSettles | core/backend/app/proxy_routes.py:85-90 | The middleware's comparison with the request path only stops earlier. |
| Redirects.MiddlewareExactly | core/backend/app/proxy_routes.py:85-90 | It redirects exactly to what the routes answer, except to the path itself. |
| Redirects.LegacyReachesNode | core/backend/app/proxy_routes.py:66-76 | A legacy node request with a nonblank id ends at that node's UI with the same tail. |
| Redirects.LegacyNodeRoute | core/backend/app/proxy_routes.py:74-76 | /ui/nodes/<id>/<tail> leads to /nodes/proxy/ui/<id>/<tail>, with the id stripped and the tail without leading slashes. |
| Redirects.LegacyAddonRoute | core/backend/app/proxy_routes.py:78-80 | /ui/addons/<id>/<tail> leads to /addons/proxy/<id>/<tail> in the same way. |
| Redirects.CanonicalRoute | core/backend/app/proxy_routes.py:66-68 | /nodes/<id>/ui/<tail> leads to the node UI too, for every id other than `proxy`. |
| Redirects.CanonicalBaseRoute | core/backend/app/proxy_routes.py:66-68 | So does /nodes/<id>/ui. |
| Redirects.AddonBaseRoute | core/backend/app/proxy_routes.py:70-72 | /addons/proxy/<id> gets its slash. |
| Redirects.NodeBaseRoute | core/backend/app/proxy_routes.py:62-64 | /nodes/proxy/<id> gets its slash. |
| Redirects.PlainTargets | core/backend/app/proxy_routes.py:21-51 | Targets of plain ids and tails are sent unescaped, slashes in the tail included. |
| Redirects.OthersStay | core/backend/app/proxy_routes.py:58-82 | Nothing outside these four families of paths is redirected. |
| Redirects.NodeUiFinal | core/backend/app/proxy_routes.py:59-60 | A canonical node UI path with a nonblank id is final and still carries id and tail. |
| Redirects.NodeUiBlank | core/backend/app/proxy_routes.py:66-68 | With a blank id it is taken for the node called `proxy`. |
| Redirects.NodeApiNext | core/backend/app/proxy_routes.py:62-68 | The API base is final unless the id is `ui`. |
| Redirects.AddonUiFinal | core/backend/app/proxy_routes.py:70-80 | An addon UI path with its slash is final, even with a blank id. |
| Redirects.MatchesAreClean | core/backend/app/proxy_routes.py:13-18 | Every id matched is nonempty without slashes, every tail without newlines. |
| Base64Url.PaddedRoundTrip | core/backend/app/api/admin.py:98-104 | Decoding the padded encoding gives the bytes back. |
| Base64Url.BareRoundTrip | core/backend/app/api/admin.py:98-106 | Stripping the padding and putting `-len % 4` signs back loses nothing, and the bare text has no colon. |
| Base64Url.JunkSkipped | core/backend/app/api/admin.py:102-106 | Characters outside the alphabet are skipped by the decoder, wherever they stand. |
| Base64Url.FullGroups | core/backend/app/api/admin.py:102-106 | Symbols alone decode if and only if they fill their groups of four. |
| Base64Url.OnlyAscii | core/backend/app/api/admin.py:102-106 | Text outside ASCII does not decode. |
| SessionCookie.TtlSeconds | core/backend/app/api/admin.py:75-81 | The lifetime is between 300 and 604800 seconds for every setting. |
| SessionCookie.TtlExactly | core/backend/app/api/admin.py:75-81 | Eight hours when unset, blank or not a number; a number is taken, cut to five minutes and seven days. |
| SessionCookie.LetInExactly | core/backend/app/api/admin.py:138-151 | A request acts as an operator if and only if it brings the token, or a genuine cookie beside a comparable header, and is not a public one with anything written in the token header; that one is forbidden. |
| SessionCookie.ActsAs | core/backend/app/api/admin.py:138-151 | With the token it acts as admin_token, with a genuine cookie as the actor in it, or as the legacy session where there is none. |
| SessionCookie.AcceptedExactly | core/backend/app/api/admin.py:117-135 | A cookie is accepted if and only if it is three or four pieces without a colon: an expiry still ahead, a nonce, maybe an actor, and the signature of all that under the secret in force. |
| SessionCookie.TokensMakeSecrets | core/backend/app/api/admin.py:84-90 | Without a secret of their own, two settings sign alike exactly when their tokens agree, an unset one counting as `local`. |
| SessionCookie.ActorRoundTrip | core/backend/app/api/admin.py:98-106 | An actor comes back from its encoding exactly when it is not empty. |
| SessionCookie.CookieParts | core/backend/app/api/admin.py:109-114 | A built cookie splits into exactly expiry, nonce, actor and signature, and the first three join to the payload. |
| SessionCookie.AcceptedUntilExpiry | core/backend/app/api/admin.py:117-135 | A built cookie is accepted exactly while the clock is before its expiry and the secrets sign the payload alike. |
| SessionCookie.Lifetime | core/backend/app/api/admin.py:109-110 | The expiry lies more than 299 and at most 604800 seconds after the moment of issue. |
| SessionCookie.SessionRoundTrip | core/backend/app/api/admin.py:138-151 | A request with a built cookie acts as the actor it was issued to exactly until expiry, unless its token header is refused, is the token, or cannot be compared; then it is forbidden, admin_token, or an error. |
| SessionCookie.AcceptedMeansSigned | core/backend/app/api/admin.py:117-135 | Every accepted cookie is a payload with its signature and an expiry still ahead. |
| SessionCookie.SignatureBindsCookie | core/backend/app/api/admin.py:132-135 | Two accepted cookies with the same signature are the same cookie. |
| SlidingWindow.BufferIsWindow | core/backend/app/remote_web_boundary.py:175-179 | The buffer is the whole history of admissions cut to the window ending at the last attempt. |
| SlidingWindow.BufferStandsIn | core/backend/app/api/system_legacy.py:379-381 | Pruning the buffer at any later moment gives what pruning the whole history would. |
| SlidingWindow.RefusedExactlyWhenFull | core/backend/app/remote_web_boundary.py:177-178 | An attempt is refused exactly when the window ending with it already holds the limit. |
| SlidingWindow.AdmittedSpaced | core/backend/app/remote_web_boundary.py:169-180 | Admissions `limit` apart in the history lie a whole window apart in time. |
| SlidingWindow.WindowBound | core/backend/app/remote_web_boundary.py:169-180 | No window anywhere in a run holds more admissions than the limit. |
| SlidingWindow.BoundedExactly | core/backend/app/remote_web_boundary.py:169-180 | A window is bounded in every run if and only if it is no longer than the rule's, or of that length with an end out or a closed rule. |
| RateLimits.NoWindowOverflows | core/backend/app/remote_web_boundary.py:169-180 | The same for one key among attempts of others, each attempt taken whole, as the boundary's lock makes it. |
| RateLimits.StaysInStep | core/backend/app/remote_web_boundary.py:172-179 | Each key's buffer depends on that key's attempts alone. |
| RateLimits.BoundaryLimiter.RateLimited | core/backend/app/remote_web_boundary.py:169-180 | Refused exactly when the minute ending now holds the limit of this key's admissions since the start. |
| RateLimits.BoundaryLimiter.PopStale | core/backend/app/remote_web_boundary.py:175-176 | Popping from the front drops exactly the times that no longer count. |
| RateLimits.OnboardingLimiter.RateLimit | core/backend/app/api/system_legacy.py:377-385 | One attempt undisturbed by others of its key: admitted exactly when the closed window ending now holds fewer admissions than the limit. |
| LimiterThreads.BoundBesideOverlap | core/backend/app/api/system_legacy.py:377-385 | However the statements of concurrent attempts alternate, admissions of attempts that overlap no other keep to the limit in every window. |
| LimiterThreads.BoundedExactlyAlone | core/backend/app/api/system_legacy.py:377-385 | The limiter bounds its windows if and only if no two attempts of a key overlap. |
| LimiterThreads.OverlapOverflows | core/backend/app/api/system_legacy.py:381-384 | For every limit, two attempts that both look before either appends are admitted over it. |
| LimiterThreads.AttemptAlone | core/backend/app/api/system_legacy.py:377-385 | The five statements of an admitted attempt on its own prune the bucket and extend it. |
| LimiterThreads.RefusedAlone | core/backend/app/api/system_legacy.py:377-383 | Those of a refused one only prune it. |
| LimiterThreads.RunSound | core/backend/app/api/system_legacy.py:377-385 | Through every run the bucket, and every filtered list not yet put back, covers the admissions of undisturbed attempts that still count. |
| RateLimits.OnboardingLimiter.StillCounting | core/backend/app/api/system_legacy.py:381 | The list kept is the times that still count, in their order. |
| CircuitBreaker.CircuitIsRecord | core/backend/app/addons/proxy.py:42-128 | Under any interleaving the circuit is open if and only if the last `threshold` outcomes failed and fewer than `open_seconds` passed since the very last. |
| CircuitBreaker.NothingHeldBack | core/backend/app/addons/proxy.py:387-430 | The machine allows every answer and exception a request can meet, at any time. |
| CircuitBreaker.OpenMeansFailures | core/backend/app/addons/proxy.py:103-111 | An open circuit means the last `threshold` recorded outcomes were all failures. |
| CircuitBreaker.SendsBounded | core/backend/app/addons/proxy.py:387-430 | A request sends at most `retries + 1` times. |
| CircuitBreaker.SendsWereAdmitted | core/backend/app/addons/proxy.py:373-396 | Every send belongs to a request whose gate, earlier, found the circuit closed. |
| CircuitBreaker.UiStaysShut | core/backend/app/addons/proxy.py:103-138 | With an opened circuit and no request under way, UI requests alone never reach a registered addon again. |
| CircuitBreaker.ApiReopens | core/backend/app/addons/proxy.py:113-128 | An API request gets through once the time is up, and a good answer opens the UI again. |
| CircuitBreaker.AddonCircuit.OpenCircuit | core/backend/app/addons/proxy.py:103-111 | Counts a failure; opens at the threshold and marks a registered addon. |
| CircuitBreaker.AddonCircuit.RecordSuccess | core/backend/app/addons/proxy.py:113-120 | Clears the count, the opening and the mark. |
| CircuitBreaker.AddonCircuit.IsCircuitOpen | core/backend/app/addons/proxy.py:122-128 | Answers whether the circuit is open now, and clears an opening that has passed. |
| CircuitBreaker.AddonCircuit.PassedGate | core/backend/app/addons/proxy.py:214-252 | The checks before the first attempt: for the UI the health status first, then the circuit. |
| CircuitBreaker.AddonCircuit.Retry | core/backend/app/addons/proxy.py:387-430 | The retry loop: it stops at the first good answer and otherwise only after `retries + 1` sends; each outcome is recorded as the machine records it, and the circuit it leaves is given outright. |
| CircuitBreaker.AddonCircuit.Forward | core/backend/app/addons/proxy.py:370-430 | One undisturbed request is a run of the machine with at most `retries + 1` sends, none exactly if the gate is shut, fewer only after a good answer. |
| MqttSupervision.SupervisionLoop.OnePass | core/backend/app/main.py:791-925 | One pass with its exception handler, on the loop's three variables and the stored setup. |
| MqttSupervision.SupervisionLoop.TryPass | core/backend/app/main.py:792-901 | The try block: final status after repair, then the branch, then telemetry, with the error of the first raising call. |
| MqttSupervision.SupervisionLoop.OnUnhealthy | core/backend/app/main.py:813-853 | The unhealthy branch up to its first raising call. |
| MqttSupervision.SupervisionLoop.OnHealthy | core/backend/app/main.py:854-884 | The healthy branch up to its first raising call. |
| MqttSupervision.SupervisionLoop.Supervise | core/backend/app/main.py:787-925 | Any finite stretch of the loop. |
| MqttSupervision.PassFollows | core/backend/app/main.py:801-884 | A pass goes by the check if that is not unhealthy, else by the first start, and after a missing configuration was repaired by the second one; it then writes the setup, warns and settles accordingly, or ends in that call's exception. |
| MqttSupervision.LateErrorsShow | core/backend/app/main.py:882-925 | An exception behind the reports ends the pass and is what the loop remembers; with none the pass ends as it settled. |
| MqttSupervision.EarlyErrorsShow | core/backend/app/main.py:812-925 | An exception of an earlier call ends the pass with the warned reason as it was. |
| MqttSupervision.RunInStep | core/backend/app/main.py:788-925 | The three variables are an exact summary of the trace, and every report in it was in order. |
| MqttSupervision.WarningsSeparated | core/backend/app/main.py:833-853 | Two warnings delivered in a row with the same reason have a healthy check between them, unless the call that delivered the first raised. |
| MqttSupervision.RaisedWarningRepeats | core/backend/app/main.py:841-853 | And if it raised, the next unhealthy pass delivers the same warning again. |
| MqttSupervision.OnlineIsNews | core/backend/app/main.py:867-881 | Every online report has an unhealthy check or an error before it, since the previous one or the start. |
| MqttSupervision.WarnsExactlyWhenNew | core/backend/app/main.py:833-853 | An unhealthy pass warns if and only if that reason was not the one warned of since the loop last settled. |
| MqttSupervision.OnlineExactlyWhenNew | core/backend/app/main.py:867-881 | A healthy pass reports online if and only if something went wrong since. |
| MqttSupervision.DegradedIsRestored | core/backend/app/main.py:813-866 | A degraded setup the loop wrote is ready, complete and without error after the next healthy pass whose calls succeed, with all else as before. |
| ListCache.BoundedStaleness | core/backend/app/addons/registry.py:63-75 | With calls in worker threads: every list returned is the merge as it stood when one call asked, either this one or one that stored its list at most ten seconds before, with no invalidating change since that storing. |
| ListCache.FreshAfterInvalidation | core/backend/app/addons/registry.py:572-626 | The first call to ask after an invalidating change merges afresh if and only if no list merged before the change is stored after it and still good. |
| ListCache.FreshWhenUndisturbed | core/backend/app/addons/registry.py:80-84 | With no change arriving inside a call, the first call after an invalidating change always merges afresh. |
| ListCache.LateStoreHides | core/backend/app/addons/registry.py:624-626 | A change between a call's merge and its storing is hidden from the next call. |
| ListCache.UpsertShowsAfterExpiry | core/backend/app/addons/registry.py:98-119 | A checked registration shows only once the list expired. |
| ListCache.ListedExactly | core/backend/app/addons/registry.py:572-626 | The merge holds exactly one entry for each known addon, the one described. |
| ListCache.ListingUnique | core/backend/app/addons/registry.py:624 | The order by id makes the merge unique. |
| ListCache.ListedSays | core/backend/app/addons/registry.py:572-626 | An entry takes local metadata where there is any, details where the addon is registered, and is enabled unless switched off. |
| ListCache.SetEnabledShows | core/backend/app/addons/registry.py:80-84 | Switching an addon shows in its own entry and in no other. |
| ListCache.LastSwitchShows | core/backend/app/addons/registry.py:77-84 | In every run an addon is listed as it was last switched, whatever else was registered, deleted or listed since. |
| ListCache.AddonRegistry.ListAddons | core/backend/app/addons/registry.py:572-626 | An undisturbed call returns the cached list within ten seconds, otherwise the merge, and caches it. |
| ListCache.AddonRegistry.MergeRegistered | core/backend/app/addons/registry.py:578-600 | The first loop: one entry for each registered addon. |
| ListCache.AddonRegistry.MergeLocal | core/backend/app/addons/registry.py:602-623 | The second loop: local metadata overrides, registry details stay. |
| ListCache.AddonRegistry.InOrder | core/backend/app/addons/registry.py:624 | The merge in order of id. |
| ListCache.AddonRegistry.DoSetEnabled | core/backend/app/addons/registry.py:80-84 | Sets the flag; invalidates once saved. |
| ListCache.AddonRegistry.DeleteRegistered | core/backend/app/addons/registry.py:121-127 | Deletes if present; invalidates once saved. |
| ListCache.AddonRegistry.StoreRegistered | core/backend/app/addons/registry.py:166-203 | Stores the record; invalidates once saved. |
| ListCache.AddonRegistry.UpsertRegistered | core/backend/app/addons/registry.py:117-119 | Stores the record and leaves the cache. |
| Traffic.Conservation | core/addons/mqtt/backend/addon.py:66-118 | The devices' message counts, topic counts and latest time are the user's. |
| Traffic.RatesConserved | core/addons/mqtt/backend/addon.py:98-112 | With a positive total the rounded rates add up to the user's within 0.0005 for each device. |
| Traffic.RowRate | core/addons/mqtt/backend/addon.py:98-112 | Each row has the user's rate times its share of the messages to within 0.0005, and 0 when there are none. |
| Traffic.OwnsExactly | core/addons/mqtt/backend/addon.py:19-24 | A topic is the user's if and only if the levels of the scope are the first levels of the topic, or without a prefix it lies below the user's name, level by level. |
| Traffic.NormalizedIs | core/addons/mqtt/backend/addon.py:20-21 | Spaces, and slashes inside them, around a topic make no difference. |
| Traffic.DeviceIs | core/addons/mqtt/backend/addon.py:27-40 | The device is the first nonempty level behind the scope, outside of it the second level, and `root` where there is none. |
| Traffic.CountsOwned | core/addons/mqtt/backend/addon.py:55-72 | As many topics are counted as the user owns. |
| Traffic.LatestExactly | core/addons/mqtt/backend/addon.py:73-77 | The time last observed is the latest among the user's topics that have one. |
| Traffic.RowsAreGroups | core/addons/mqtt/backend/addon.py:81-112 | Rows come in order of id, and each sums up exactly the topics inferred to be its device's. |
| Traffic.EveryTopicHasARow | core/addons/mqtt/backend/addon.py:80-89 | Every topic the user owns is in some row. |
| Traffic.TableGroups | core/addons/mqtt/backend/addon.py:81-97 | The device dictionary is the grouping of the topics by inferred device. |
| Traffic.RoundingError | core/addons/mqtt/backend/addon.py:110 | Rounding to three places moves a rate by at most 0.0005. |
| Traffic.RoundedExactly | core/addons/mqtt/backend/addon.py:110 | It is the nearest number of thousandths, of two as near the even one. |
| Traffic.Accumulate | core/addons/mqtt/backend/addon.py:55-97 | The loop over topics computes the table, the counts and the latest time. |
| Traffic.Count | core/addons/mqtt/backend/addon.py:81-97 | One topic is counted for its device, which is created if new. |
| Traffic.BuildUserItems | core/addons/mqtt/backend/addon.py:43-119 | One item for each generic user, in order. |
| Traffic.ItemsCount | core/addons/mqtt/backend/addon.py:43-51 | There is one item for each generic user. |
| Traffic.ItemAt | core/addons/mqtt/backend/addon.py:43-51 | And each stands where its user does among them. |
| NodeWarnings.NodeMonitor.PollOnce | core/backend/app/core/node_operational_notification_service.py:44-81 | One poll: the memory left and the warnings are those of the specification. |
| NodeWarnings.NodeMonitor.VisitNode | core/backend/app/core/node_operational_notification_service.py:47-76 | One registration of the loop. |
| NodeWarnings.NodeMonitor.Forget | core/backend/app/core/node_operational_notification_service.py:78-80 | Exactly the nodes no longer registered are forgotten. |
| NodeWarnings.WarnsOnEntry | core/backend/app/core/node_operational_notification_service.py:44-81 | Each entry into offline or degraded is warned of exactly once, and nothing else is. |
| NodeWarnings.WarnsExactly | core/backend/app/core/node_operational_notification_service.py:44-98 | Over registrations: a warning is sent once exactly when a trusted, ready registration is in that state by its report and its age, and none was in the poll before. |
| NodeWarnings.OtherStatus | core/backend/app/core/node_operational_notification_service.py:83-98 | A node neither offline nor degraded has the status it reports, or none. |
| NodeWarnings.ThresholdsExactly | core/backend/app/core/node_operational_notification_service.py:12-27 | The two thresholds for unset, unreadable and numeric settings. |
| NodeWarnings.WarningsSeparated | core/backend/app/core/node_operational_notification_service.py:60-70 | Between two equal warnings lies a poll that saw the node otherwise or not at all. |
| NodeWarnings.MemoryIsLastView | core/backend/app/core/node_operational_notification_service.py:44-81 | After a poll the memory is exactly what that poll saw of trusted, ready, registered nodes. |
| NodeWarnings.AgeOnlyWorsens | core/backend/app/core/node_operational_notification_service.py:91-97 | By the age of its report a node only gets worse, for all settings. |
| NodeWarnings.EveryStageExists | core/backend/app/core/node_operational_notification_service.py:12-27 | The thresholds are ordered for all settings, so no stage is skipped. |
| NodeWarnings.ImprovesExactlyWhen | core/backend/app/core/node_operational_notification_service.py:83-98 | Effective health improves with no new report exactly when a reported `offline` turns stale. |

## Left out

- The supervisor's copies under `supervisor/` and the addon loop with its sleep: one addon directory is modelled, once.
- A version name is one plain path component, and `current` is absent or a link to a version directory; slashes, dots and
  other link targets are not modelled.
- `runtime.env`, the service token, timestamps and `last_action` of the record, and log output.
- Failures to read or decode an existing compose or group file; an unreadable runtime record is modelled.
- A version directory or extracted tree deleted only in part, except what a failing removal leaves before extraction.
- Retention.RetentionSize, Retention.RetentionAge: with deletes succeeding; failing ones are in Retention.CleanupProtects.
- SupervisorRuns.RollbackHonesty: not across a crash between moving `current` and writing the record; crashes are in
  SupervisorRuns.CrashSafety.
- ComposeCache.CacheAgreement: not across version changes, stop ticks or error ticks, where it is false; see
  ComposeCache.StopForgetsDigest.
- ExtractionCache.MarkersNeverLie: with removals that work and archives without a marker of their own; the other case is
  ExtractionCache.ExtractionExact.
- Lower case is ASCII lower case; digits outside ASCII and the length limit of `int()` are not modelled.
- The text of a CPU limit is taken as printed, and the ports as already read from JSON.
- Which characters count as word characters for `\b` is a parameter of the rewriting rules.
- Redirects.RedirectsSettle: the path is the decoded request path; Starlette's rebuilding of the URL, query strings and
  the replacement of bytes that are not UTF-8 are not part of this model.
- Redirects.LegacyNodeRoute, Redirects.LegacyAddonRoute, Redirects.CanonicalRoute: tails with no line feed but at the very
  end; no pattern matches the others.
- Traffic.DeviceIs: topics and scopes that trimming once more does not change; a level of nothing but space at either end is
  not covered.
- Login, logout, secure-cookie flags and the other users of the session; the public-host test is a parameter.
- The derivation of the limiters' keys. The boundary limiter's attempts are whole, since it holds a lock; the onboarding
  limiter's are five statements in LimiterThreads, of which the filtering of the bucket is one step.
- RateLimits.OnboardingLimiter.RateLimit: one attempt that no other of its key disturbs; those that overlap are in
  LimiterThreads.
- ListCache.AddonRegistry.ListAddons: one call that nothing disturbs; those that a change reaches are in the machine that
  the lemmas are about.
- ListCache.BoundedStaleness, ListCache.FreshAfterInvalidation: a call reads the cache, and merges the dictionaries, at one
  moment; a change that arrives while a call is merging is before or after it.
- What a proxied request returns, in particular after a last 5xx answer, headers, websockets and timeouts: only sends and
  recorded outcomes are modelled. Tuning is fixed during a run.
- CircuitBreaker.AddonCircuit.Forward: one request undisturbed; interleaving is in the machine that the lemmas are about.
- The payloads of MQTT reports, audit and telemetry events; a setup changed by others between the loop's read and its
  write within one pass.
- The fields an announce, health update, remote registration, configuration or verification computes: each is the storing
  of some record, after silent changes.
- Health refresh of all registered addons, which is silent changes followed by one store; addon health dictionaries;
  later edits inside a cached list.
- Topic items that are not dictionaries, counts that are not numbers; rates are real numbers, not floats.
- Text of node warnings and the result of publishing them; node ids are unique within a poll.
- Onboarding, budgets, governance, leases, install sessions, UI metadata, Cloudflare rendering and the frontend.
