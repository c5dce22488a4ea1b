# Verification of the repository's protocols and text formats

A Dafny model of the parts of this repository where an interleaving, a crash, a cut in a byte stream or
a character out of place would matter, and proofs of what those parts promise.

- **Atomic files** (`FileSystem`, `AtomicWrite`, `AtomicReturns`, `AtomicWriteCalls`, `TemporaryNames`). A file system with a
  volatile and a durable half: a directory is durable entries plus a log of unsynced changes, of which a crash
  keeps any subset; an inode's bytes are lost unless synced. Any number of callers of
  `replaceFileAtomically` and `createFileExclusively` interleave system call by system call, and any call may
  fault. The two functions are also written as code over a mutable volume and proved to be runs of that
  machine.
- **Docker logs** (`DockerLogs`). The frame format, the batch walk, the bounded read and the incremental
  follower, each as the loop it is, over bytes.
- **Certificate cache** (`CertCache`, `CertSchedules`, `CertCacheCalls`). One entry of the cache and any number of workers in
  `mintCached`, one file-system call a step, with a clock, deaths and failures; and `mintCached` as code among
  any others.
- **Sandbox runs** (`Authority`, `HopServer`, `SandboxRun`, `SandboxRunOutcomes`, `SandboxRunResults`, `SandboxRunCalls`). The hop's
  checks and its latch; then any number of runs against one Docker daemon, one daemon call, container event or
  delivered log line a step, where a call may fail before or after it took effect. `build`, `runInSandbox` and
  `teardown` are also written as code and proved to be runs of that machine.
- **Rebuild** (`Rebuild`, `RebuildRuns`). The bounded loop over an arbitrary provider and a store, killed
  anywhere, and sequences of such runs.
- **Environment files** (`Text`, `EnvLines`, `EnvFile`, `EnvMerge`, `EnvLaws`, `EnvTheorems`, `EnvLayout`). Reading, filling,
  merging and rendering as text, and the laws of a merge.
- **Messages** (`Ingest`, `IngestMirror`, `FollowUps`, `IngestLoop`). The handlers over a session, the store's
  mirror of Slack, the two doors into the router, and the closed loop of the app's own posts.
- **Proxy commands** (`AuditCsv`, `Calendar`, `TimeBound`, `Drift`). The CSV printer against a reader of RFC 4180,
  the date bound against the calendar of ECMA-262, and the drift totals.

State machines are functions from a state and a move to a state, and their results are about every run.
Code that changes things in place is imperative Dafny, proved against the functions the results are about.
Fields called a history (`owner`, `order`, `puts`, …) are read by no step.

## Where the code does not do what is said of it

Each of these comes with a run that shows it and with the exact condition under which the code does meet its
promise.

- `packages/atomic-write/src/atomic-write.ts:169-173` says a shared temporary name would fail the create rather
  than corrupt anything. The cleanup at 104-112 unlinks a name this caller never made. Two callers may share a name
  all the same; any three can leave a target that a crash turns into anything
  (`TemporaryNames.ThreeSharersTear`), so that no target is ever torn exactly when no three share
  (`TemporaryNames.NeverTornIff`). `TemporaryNamesDiffer` says when the shape of the name keeps them apart.
- `e2e/src/harness/cert-cache.ts:155-160` says an interleaved copy cannot happen. Two workers that find the same
  dead claim can both pass the test at 181, and the second then deletes the first one's fresh claim:
  `CertSchedules.OverlappingRecoveriesMix`. A copy that fails half-way can take another worker's marker with it
  (197-198): `CertSchedules.FailedCopyUnpublishes`. What goes wrong is in each case a removal that hits: one that
  takes away an entry being filled or published. Without one every result of the cache holds, whatever is late or
  fails (`CertCache.MarkerMeansWhole`); with one, and one more worker, a marked entry comes to be changed
  (`CertSchedules.HitsIff`). Testing and removing being separate steps, that is a matter of schedules:
  `CertSchedules.MarkerSafeIff` says which assumptions about them are enough, for how many workers, and that no
  others of theirs are.
- `apps/runner/src/run.ts:401-404` undoes a failed `build` by removing the network only. Whatever container the
  daemon made for the run stays and keeps the network (`SandboxRunResults.FailedBuildLeavesItsNetwork`,
  `FailedBuildLeavesItsHop`); nothing is left exactly when none was made and the removal was carried out
  (`FailedBuildLeavesNothingIff`).
- `apps/runner/src/run.ts:283-300`: a sandbox may exit before the denial's line is delivered, so that a denied run is
  reported as completed (`SandboxRunResults.DenialCanBeMissed`). It is reported as denied exactly when nothing else went wrong and the
  line was delivered before the logs were read (`SandboxRunOutcomes.DeniedIffDelivered`).
- `apps/server/src/rebuild-cli.ts:239-244` stamps the served model so as not to need a second rebuild, but the drop
  test at 310 compares the configured one: with the two different every run starts over, exactly
  (`RebuildRuns.ResumesIffServedAsked`). And the closing line at 363 names the configured model, which is true
  exactly when the two are the same (`Rebuild.RunRebuild`).
- `apps/server/src/rebuild-cli.ts:176-179` says a rerun after a crash builds the same batches and so is not counted
  twice. After a crash within a batch it does not: the texts not yet stored are reported again under another id. It
  goes under the same id exactly when nothing of the batch was stored and it is as long
  (`RebuildRuns.RerunKeepsIdIff`).
- `packages/cli/src/env-file.ts:54` counts `""` and `''` as empty and 158 fills only a bare value, so a
  quoted-empty variable is reported as filled, unchanged, on every merge. `EnvTheorems.MergeIsIdempotentIff` is
  the exact condition.
- `apps/proxy-server/src/audit-cli.ts:205` passes the year through `Date.UTC`, which reads 0 to 99 as 1900 to 1999:
  real dates of those years are refused, and no others (`TimeBound.AcceptsExactlyRealDates`).
- `apps/server/src/ingest.ts:217-218` awaits before the append, so a deletion handled meanwhile is lost, and an
  edit (`IngestMirror.OvertakenIsLost`, `DeletedWhileWaitingStays`). The store ends up right about a message
  exactly when its last revision could be handled at the moment it was (`IngestMirror.StoreMirrorsIff`).

## Model

| member | source | states |
|---|---|---|
| `FileSystem.OutcomesAreCrashes` | packages/atomic-write/src/atomic-write.ts:92-115 | What a name can read as after a crash, by its unsynced log, is exactly what some crash leaves it reading as |
| `AtomicWrite.CrashLeavesWholeFile` | packages/atomic-write/src/atomic-write.ts:92-115 | Power lost anywhere in any interleaving, with any subset of unsynced effects and up to two callers on one temporary: the target comes back as it could have at the start, as one caller's whole bytes, or, where a create has made the name and its bytes were never synced, as any bytes; and never as what a caller who has returned replaced |
| `AtomicWrite.ReturnIsDurable` | packages/atomic-write/src/atomic-write.ts:100-115 | After a normal return no later crash brings back what was replaced: only that caller's bytes, or a later lander's |
| `AtomicWrite.LastLandingWins` | packages/atomic-write/src/atomic-write.ts:92-115 | In every interleaving the target reads as the last caller to land wrote it: whole after a rename and once a create has written, nothing before that, a prefix if its write failed; and as before while nobody has landed, failed callers included |
| `AtomicWrite.AtMostOneCreate` | packages/atomic-write/src/atomic-write.ts:147-157 | Of racing creates on one path at most one ever holds it, none where a file or link stood, and no existing byte is written |
| `AtomicReturns.ReturnsIff` | packages/atomic-write/src/atomic-write.ts:92-157 | Under any interleaving that leaves the name it creates alone, a caller returns exactly when the directory was there, that name free, and all its own calls were made and worked; it is on its way to a throw exactly if one did not |
| `AtomicWriteCalls.Volume.ReplaceFileAtomically` | packages/atomic-write/src/atomic-write.ts:92-115 | The code, under any faults, keeps the replace promise: old or new at every crash point, new for good after a return, old or new after a throw; it returns exactly when the directory is there, the temporary's name free and each of its calls works; and leaves no temporary unless a call of its catch block fails |
| `AtomicWriteCalls.Volume.CreateFileExclusively` | packages/atomic-write/src/atomic-write.ts:147-157 | The code never writes or replaces what stood under the name, and a success is durable; it succeeds exactly when the directory is there, the name free and each of its calls works |
| `AtomicWriteCalls.Volume.CatchBlock` | packages/atomic-write/src/atomic-write.ts:104-112 | A caught failure ends in a throw, having removed at most the temporary, and with no temporary left when its own calls work |
| `AtomicWriteCalls.Volume.SyncDir` | packages/atomic-write/src/atomic-write.ts:188-195 | The call succeeds exactly when the directory is there and was opened, synced and closed, and changes nothing else |
| `AtomicWriteCalls.ReplaceKeepsPromise` | packages/atomic-write/src/atomic-write.ts:80-115 | Any finished run of a lone replace keeps its promise |
| `AtomicWriteCalls.CreateKeepsPromise` | packages/atomic-write/src/atomic-write.ts:117-157 | Any run of a lone create keeps its promise |
| `TemporaryNames.TemporaryNamesDiffer` | packages/atomic-write/src/atomic-write.ts:176-181 | Two temporary names are equal exactly for the same target, process and draw, and none is its target's own name |
| `TemporaryNames.ThreeSharersTear` | packages/atomic-write/src/atomic-write.ts:92-112 | Any three callers that share a temporary have a run after which a crash leaves a target with any bytes one likes |
| `TemporaryNames.NeverTornIff` | packages/atomic-write/src/atomic-write.ts:159-181 | For replaces whose temporaries are no targets: every run, crashed anywhere, leaves every target original or whole exactly when no three share a temporary |
| `DockerLogs.ParseIsExact` | apps/runner/src/docker.ts:421-443 | The whole frames of any bytes, encoded again, followed by the residue, are those bytes |
| `DockerLogs.ParseAfterEncode` | apps/runner/src/docker.ts:421-443 | Encoded frames in front of any bytes parse back as those frames |
| `DockerLogs.ParseResumes` | apps/runner/src/docker.ts:470-481 | Parsing may stop at any cut and resume from the residue |
| `DockerLogs.WireFormat` | apps/runner/src/docker.ts:421-443 | Byte by byte: the stream, three bytes, the length with its highest byte first, the payload; stream 2 is the error stream and any other output |
| `DockerLogs.Demultiplex` | apps/runner/src/docker.ts:421-443 | The loop yields each stream's payloads, the cut last frame's included, and is truncated exactly when told so or cut inside a frame |
| `DockerLogs.DemultiplexInvertsEncode` | apps/runner/src/docker.ts:421-443 | Encoding any frames and demultiplexing is the identity on each stream |
| `DockerLogs.CutShortens` | apps/runner/src/docker.ts:376-443 | Cutting the bytes anywhere leaves a prefix of each stream |
| `DockerLogs.KeepBounded` | apps/runner/src/docker.ts:376-412 | However the reply is chunked, exactly its first bytes up to the bound are kept, and the flag says whether there were more |
| `DockerLogs.ReadLogs` | apps/runner/src/docker.ts:376-443 | Each stream comes back as a prefix of itself, whole when it fits; no more than the bound is kept; truncated exactly when over the bound or cut inside a frame |
| `DockerLogs.LinesAreExact` | apps/runner/src/docker.ts:482-488 | Lines and tail put together are the text, and hold no line feed |
| `DockerLogs.LinesResume` | apps/runner/src/docker.ts:482-488 | Line splitting may stop anywhere and resume from the tail |
| `DockerLogs.LineFormat` | apps/runner/src/docker.ts:482-488 | A line is what comes before a byte 10 |
| `DockerLogs.Follower.OnData` | apps/runner/src/docker.ts:470-489 | After any chunk the emitted lines, the pending text and the carry are those of all bytes received so far |
| `DockerLogs.Follower.WalkFrames` | apps/runner/src/docker.ts:473-481 | The walk leaves the residue as carry and appends the whole frames' text |
| `DockerLogs.Follower.EmitLines` | apps/runner/src/docker.ts:482-488 | Exactly the non-empty whole lines are emitted, in order, and the tail stays pending |
| `DockerLogs.Follow` | apps/runner/src/docker.ts:458-505 | However the body is cut into chunks, the emitted lines are the non-empty whole lines of its whole frames |
| `DockerLogs.FollowAgreesWithDemultiplex` | apps/runner/src/docker.ts:421-492 | The follower's text is a prefix of the batch decoder's, and the same at a frame boundary |
| `CertCache.MarkerMeansWhole` | e2e/src/harness/cert-cache.ts:127-200 | In every run in which no removal hits, whatever is late, fails or dies, a marker means the entry holds exactly one mint's files |
| `CertCache.FinishedNeverChanges` | e2e/src/harness/cert-cache.ts:173-200 | In every such run a finished entry stays finished and unchanged, whatever runs on |
| `CertCache.EveryCallGetsOneMint` | e2e/src/harness/cert-cache.ts:216-239 | In every such run every hit hands out the one whole published mint; a call that minted keeps exactly its own |
| `CertCache.RulesSpare` | e2e/src/harness/cert-cache.ts:174-190 | No removal hits when publishers and recoveries are on time, no copy fails half-way, and nobody tests an age between another's test and its removal |
| `CertCache.PublishesAloneIff` | e2e/src/harness/cert-cache.ts:173-200 | Where publishers are on time, the next one alone can fill the entry, hitting nothing, exactly when no marker is there and the entry is absent or its claim stale |
| `CertCache.HitsAloneIff` | e2e/src/harness/cert-cache.ts:216-239 | A call by itself is a hit exactly when the marker is there; then, as long as nothing throws, it mints nothing and ends with the entry's files |
| `CertSchedules.HitsIff` | e2e/src/harness/cert-cache.ts:173-200 | A next step can lead to a marked entry being changed, with one newcomer and without a further such removal, exactly when it is a removal that hits |
| `CertSchedules.MarkerSafeIff` | e2e/src/harness/cert-cache.ts:127-200 | Of all sets of these assumptions, a marker means one whole mint in every run exactly when there is one worker, or no removal hits, or all is on time, no copy fails, and tests and removals are apart or only two workers are there |
| `CertSchedules.MarkerLastsIff` | e2e/src/harness/cert-cache.ts:127-200 | On the same condition exactly, no step takes a marker away or changes a marked entry |
| `CertSchedules.OverlappingRecoveriesMix` | e2e/src/harness/cert-cache.ts:180-185 | A timely run of three workers whose recoveries overlap ends with a marker on a mixture |
| `CertSchedules.FailedCopyUnpublishes` | e2e/src/harness/cert-cache.ts:192-199 | Of any two workers or more, a failed copy's cleanup can take another's marker away |
| `CertCache.KeysMeetWithinOneWeek` | e2e/src/harness/cert-cache.ts:112-125 | Two calls share an entry exactly when they are the same request in the same week |
| `CertCacheCalls.Worker.MintCached` | e2e/src/harness/cert-cache.ts:216-239 | The code, whatever others do between its calls, is a run of the machine; if no removal hits the caller gets the published mint, whole, or all of its own; left alone, it uses an entry that is published and fills one that is open |
| `CertCacheCalls.Worker.Publish` | e2e/src/harness/cert-cache.ts:173-200 | The code of `publish` ends published or having given way, and throws only from its cleanup; left alone with an open entry it publishes |
| `CertCacheCalls.Worker.TryClaim` | e2e/src/harness/cert-cache.ts:174-190 | Clearing a stale claim and taking the name: it holds the claim, or has given way |
| `CertCacheCalls.Worker.TryFill` | e2e/src/harness/cert-cache.ts:192-195 | The copy ends with the marker written, or goes to the cleanup |
| `Authority.ParseAuthorityIff` | apps/runner/src/hop-server.ts:107-117 | A target parses to a host and port exactly when it is a plain or bracketed host, a colon, and one to five digits worth 1 to 65535 |
| `Authority.ForbiddenQuads` | apps/runner/src/hop-server.ts:86-98 | Of all dotted addresses exactly 127/8, 169.254/16 and 0/8 are forbidden |
| `Authority.ForbiddenIff` | apps/runner/src/hop-server.ts:86-98 | Character by character, with or without brackets: exactly `localhost`, `::1`, `::`, the listed prefixes and `fe[89ab][0-9a-f]:`, in any letter case |
| `Authority.SpellingsAgree` | apps/runner/src/hop-server.ts:87-88 | Addresses that differ in letter case only get one verdict |
| `HopServer.Hop.Connect` | apps/runner/src/hop-server.ts:132-179 | One request: latch, log, dialled destinations and answer |
| `HopServer.EndsIff` | apps/runner/src/hop-server.ts:148-160 | What ends a run: a well-formed request for a host the sheet does not allow, or of a forbidden form |
| `HopServer.AnswersUntilFirstDenial` | apps/runner/src/hop-server.ts:138-165 | Whatever was asked before, a client is told it is connected exactly for a well-formed target before the first request that ends the run, of a bad request for any other there, and is refused from then on |
| `HopServer.ServesUntilFirstDenial` | apps/runner/src/hop-server.ts:119-181 | For any requests, the destinations dialled are the well-formed ones before the first not permitted, and that host alone is announced |
| `HopServer.DialledWasPermitted` | apps/runner/src/hop-server.ts:153-162 | Every destination dialled was asked for, is allowed by the sheet, has no forbidden form and no brackets |
| `SandboxRunResults.TunnelsArePermitted` | apps/runner/src/hop-server.ts:119-181 | In every interleaving each hop's tunnels go to hosts its sheet allows and to no address of a forbidden form, and it announces at most one host, not such a one |
| `SandboxRunResults.NoTunnelAfterDenial` | apps/runner/src/hop-server.ts:138-160 | After its first denial a hop opens nothing ever again |
| `SandboxRunOutcomes.OutcomeIs` | apps/runner/src/run.ts:267-305 | What a run answers, from its moves: it throws exactly when one of its calls went unanswered, its network's name was taken or its hop never listened; else it is denied exactly when a denial was delivered, by the first; else timed out exactly when its time was up first; else completed with the sandbox's status |
| `SandboxRunOutcomes.OutcomeMeans` | apps/runner/src/run.ts:267-305 | `egress_denied` names exactly the announced host, whose line was delivered and which the sheet does not allow or no sheet may reach; `timed_out` and `completed` only when no denial was delivered; a throw only when something went wrong |
| `SandboxRunOutcomes.DeniedIffDelivered` | apps/runner/src/run.ts:283-300 | A run is reported as denied exactly when nothing went wrong and a denial was among the lines delivered to it, and names it |
| `SandboxRunOutcomes.LineIsDelivered` | apps/runner/src/run.ts:272-282 | A line handed on while the run is followed counts, once and in its turn |
| `SandboxRunOutcomes.KillLandsIff` | apps/runner/src/run.ts:278-281 | The kill stops a running sandbox exactly when a denial was delivered |
| `SandboxRunOutcomes.LateIsKilled` | apps/runner/src/run.ts:307-311 | A run whose time is up kills its sandbox before it reads the logs, unless the daemon does not do it |
| `SandboxRunOutcomes.DecidedBeforeTeardown` | apps/runner/src/run.ts:283-305 | A run has an outcome exactly from teardown on; unless something threw it is the one its denial and status decide |
| `SandboxRunOutcomes.OutcomeIsFinal` | apps/runner/src/run.ts:283-305 | A run's outcome, once decided, never changes |
| `SandboxRunResults.TeardownIsExact` | apps/runner/src/run.ts:283-305 | A run whose build succeeded asks for the removal of its sandbox, its hop, its network, in that order; everything made for it is among them; each exactly once by anybody, whatever throws |
| `SandboxRunResults.NetworkIsFreeByThen` | apps/runner/src/run.ts:407-424 | Once both containers' removals worked, nothing is attached to the network when its own is asked for |
| `SandboxRunResults.NoSilentLeak` | apps/runner/src/run.ts:415-424 | A run that reported no failed removal left nothing behind |
| `SandboxRunResults.ReportsAreFailures` | apps/runner/src/run.ts:415-424 | One report for each removal of the teardown that threw, and no other |
| `SandboxRunResults.SandboxesAreConfined` | apps/runner/src/run.ts:323-400 | No sandbox is on the egress network or another run's; none at all without egress; an egress sandbox starts only after its hop listens |
| `SandboxRunResults.FailedBuildRemovesNoContainer` | apps/runner/src/run.ts:349-404 | A failed build asks for its network's removal at most, and none of its containers is gone |
| `SandboxRunResults.FailedBuildLeavesItsNetwork` | apps/runner/src/run.ts:401-404 | In every run, a failed build for which the daemon made a container leaves its network standing |
| `SandboxRunResults.FailedBuildLeavesNothingIff` | apps/runner/src/run.ts:401-404 | The one call of its cleanup leaves nothing exactly when the daemon carried it out and had made no container |
| `SandboxRunResults.FailedBuildLeavesItsHop` | apps/runner/src/run.ts:401-404 | A build whose hop never listens leaves the hop running on a network that stays |
| `SandboxRunResults.DenialCanBeMissed` | apps/runner/src/run.ts:283-300 | A run whose hop denied is reported as completed |
| `SandboxRunResults.DenialCanBeReported` | apps/runner/src/run.ts:283-294 | And a run whose hop denied is reported as denied |
| `SandboxRunCalls.Runner.RunInSandbox` | apps/runner/src/run.ts:267-305 | The code, whatever the world does between its calls, is a run of the machine and answers what `OutcomeIs` says of it; when all its calls are answered it throws only for a taken name or a hop that never listened; it has asked for the removal of its sandbox, hop and network in order, or after a failed build of its network alone |
| `SandboxRunCalls.Runner.Build` | apps/runner/src/run.ts:323-405 | The code of `build` ends ready to start the sandbox, or thrown with no sandbox, having asked for the removal of its network if it had one and of nothing else |
| `SandboxRunCalls.Runner.WaitForHop` | apps/runner/src/run.ts:181-198 | It returns on the listening line and otherwise on the timer |
| `SandboxRunCalls.Runner.Teardown` | apps/runner/src/run.ts:415-424 | Sandbox, hop and network are asked to go, in that order and once each, whichever of these throws, and the outcome stays |
| `Rebuild.RunRebuild` | apps/server/src/rebuild-cli.ts:303-366 | For every provider and wherever the process dies: vectors go to the oldest pending summaries in order, each the provider's for that summary's own text; stored plus pending is conserved, the limit holds, all stored are under one model, which the file is stamped with; with a provider that answers what the file takes it goes on to its limit or the end; a closing line saying all is done means nothing is pending, and the model it names is true exactly when it is the served one |
| `Rebuild.EmbedPending` | apps/server/src/rebuild-cli.ts:318-366 | The loop ends for every provider; each vector stored is an answer to its own summary's text; each last line gives the number stored and says what is left, and "rebuilt" means all of them are under the file's own stamp |
| `Rebuild.EmbedBatch` | apps/server/src/rebuild-cli.ts:199-250 | One call stores a prefix of its batch, as long as the answer: its vectors in order for the batch's threads in order, all under the served model; given an answer the file takes, all of the batch unless the process dies |
| `RebuildRuns.RunAgain` | apps/server/src/rebuild-cli.ts:303-376 | The command run any number of times, with any limits and deaths, makes the sequences of runs the next four rows are about, with their drops, each summary with the vector of its own text; when the configured model is served it comes to one run in which no summary is embedded twice |
| `RebuildRuns.ManyRunsAreOne` | apps/server/src/rebuild-cli.ts:303-376 | With the configured model served, runs stopped anywhere are one run of all their vectors, and drop at most once |
| `RebuildRuns.NothingTwice` | apps/server/src/rebuild-cli.ts:321-343 | Over all those runs no summary is embedded twice |
| `RebuildRuns.FinishedRunsAgree` | apps/server/src/rebuild-cli.ts:303-366 | When they finish, the same summaries are embedded in the same order under the same model as after one uninterrupted run |
| `RebuildRuns.ResumesIffServedAsked` | apps/server/src/rebuild-cli.ts:304-316 | The next run carries on exactly when the served model was the configured one; otherwise everything is pending again |
| `RebuildRuns.TurnKeysDiffer` | apps/server/src/rebuild-cli.ts:183-187 | Two batches hash the same bytes exactly when they are the same threads in order |
| `RebuildRuns.RerunKeepsIdIff` | apps/server/src/rebuild-cli.ts:172-187 | After a crash within a batch the rerun's first batch begins with the texts not stored, and has the same id exactly when nothing of the batch was stored and it is as long |
| `EnvLines.RebuiltMatches` | packages/cli/src/env-file.ts:150-162 | A filled line still matches, with its prefix and name kept and the new value |
| `EnvLines.TrimEndKeepsValues` | packages/cli/src/env-file.ts:139-139 | Trimming a file's end changes no name's first or last value, nor how often it is assigned |
| `EnvFile.AssignedNames` | packages/cli/src/env-file.ts:47-62 | Exactly the assigned names, each with whether its first value looks empty |
| `EnvFile.AssignedValues` | packages/cli/src/env-file.ts:78-95 | Exactly the assigned names, each with its last value unquoted |
| `EnvFile.UnquoteIs` | packages/cli/src/env-file.ts:91-95 | A value in a pair of quotes is read without them, any other as it stands |
| `EnvFile.EmptyIsReadEmpty` | packages/cli/src/env-file.ts:47-95 | What is recorded as empty is exactly what reads as nothing |
| `EnvFile.CommentReadsBack` | packages/cli/src/env-file.ts:165-167 | A comment is written behind its mark and reads back |
| `EnvFile.Fill` | packages/cli/src/env-file.ts:150-163 | The first bare assignment of the name is given the value, every other line is left |
| `EnvFile.FillChangesFirst` | packages/cli/src/env-file.ts:150-163 | A fill changes the first value of its own name only, and only where it was bare |
| `EnvFile.FillKeepsLatest` | packages/cli/src/env-file.ts:150-163 | A fill never changes a last value that is there, nor another name's |
| `EnvMerge.MergeEnvFile` | packages/cli/src/env-file.ts:117-147 | The loops compute the merge the laws are about |
| `EnvMerge.RenderEnvFile` | packages/cli/src/env-file.ts:98-106 | The loop computes the rendering the laws are about |
| `EnvTheorems.MergeLosesNoValue` | packages/cli/src/env-file.ts:108-147 | Every value that is not bare reads the same after a merge; every block name is assigned and no other is added; a new name reads as its block gives it |
| `EnvTheorems.MergeKeepsLines` | packages/cli/src/env-file.ts:108-147 | Line by line: a line is given a value exactly when it is the first bare assignment of a variable to be filled, and every other line survives in order, up to white space trimmed before an append |
| `EnvTheorems.MergeIsIdempotentIff` | packages/cli/src/env-file.ts:117-147 | Merging again is quiet exactly when each variable with a value had no blank or quoted-empty one to write and found no quoted-empty one |
| `EnvTheorems.MergeIntoRenderIff` | packages/cli/src/env-file.ts:98-147 | Merging blocks into their own rendering is the identity exactly when no value to write is blank or quoted-empty |
| `EnvTheorems.RenderedAssigns` | packages/cli/src/env-file.ts:98-106 | A rendered file has exactly one line assigning each variable, with its value, and none assigning anything else |
| `EnvLayout.RenderLayout` | packages/cli/src/env-file.ts:98-106 | A rendered file is all the comments in order and one line for each variable in order, beside empty lines, with its end trimmed to one line feed |
| `EnvLayout.AdditionsLayout` | packages/cli/src/env-file.ts:131-146 | What a merge appends is the missing variables in order and the comments of exactly their blocks |
| `Ingest.Session.OnMessage` | apps/server/src/ingest.ts:210-374 | What a message writes, which passes it queues, and exactly when it becomes which request |
| `Ingest.PassesInOrder` | apps/server/src/ingest.ts:252-328 | Exactly the passes that are wired are queued, once each: the sweep, the embedding, the lifecycle, and last the curator |
| `Ingest.Session.OnRevision` | apps/server/src/ingest.ts:422-454 | What a revision changes, in whichever table holds the message |
| `Ingest.Session.Append` | packages/memory/src/store-db.ts:3502-3518 | The first write of a message wins |
| `Ingest.Session.Remove` | packages/memory/src/store-db.ts:3535-3543 | A deletion reaches both tables |
| `Ingest.Session.ReplaceText` | packages/memory/src/store-db.ts:3545-3548 | An edit reaches both tables and adds nothing |
| `Ingest.Session.Activate` | apps/server/src/session/threads.ts:58-83 | From then on exactly that thread's deadline has changed |
| `FollowUps.FollowUpIff` | apps/server/src/ingest.ts:330-373 | After any activations, a message becomes a request exactly when a person posted it without a mention in a thread whose last task is within its window; the request is for that thread, its author and its text, as a mention's would be |
| `FollowUps.RepliesReachTheMention` | apps/server/src/handler.ts:53-64 | While a mention's thread is within its window, what reaches it through the other door is exactly people's replies in the mention's thread, or under the mention |
| `IngestMirror.StoreMirrorsIff` | apps/server/src/ingest.ts:194-454 | After any orderly run, at rest, the store is right about a message exactly when its last revision could be handled at the moment it was: a deletion with no copy waiting, an edit of a stored row or back to the delivered text |
| `IngestMirror.StoreMirrorsSlack` | apps/server/src/ingest.ts:194-454 | So when no revision of it overtakes its filing, the store holds a message exactly if it was delivered and not deleted, with its latest text, in its own table |
| `IngestMirror.RevisionAddsNoRow` | apps/server/src/ingest.ts:396-406 | In no run does a revision add a row |
| `IngestMirror.EveryRowWasDelivered` | apps/server/src/ingest.ts:396-406 | In every run, orderly or not, each row was delivered as a message |
| `IngestMirror.EveryRowIsASnapshot` | apps/server/src/ingest.ts:217-249 | In every run each row keeps the author's name and the time its own handler had |
| `IngestMirror.OvertakenIsLost` | apps/server/src/ingest.ts:217-249 | A revision handled during the wait for a name is lost, unless it is an edit back to the delivered text |
| `IngestMirror.DeletedWhileWaitingStays` | apps/server/src/ingest.ts:217-249 | So a deleted message can be stored, and stay |
| `IngestMirror.LaterEditCatchesUp` | apps/server/src/ingest.ts:422-454 | An edit handled at rest makes up for whatever was lost before |
| `IngestLoop.AgentPostStartsNothing` | apps/server/src/ingest.ts:330-355 | The app's own post starts no task when it comes back |
| `IngestLoop.OneTaskEach` | apps/server/src/ingest.ts:330-373 | Each human message gets at most one task, a mention exactly one, and nothing else gets any |
| `IngestLoop.NoMoreTasksThanMessages` | apps/server/src/ingest.ts:330-373 | Human messages bound tasks |
| `IngestLoop.LoopQuiesces` | apps/server/src/handler.ts:52-80 | From any point of any run, unless a person posts, at most so many further events as the bound says can do anything |
| `AuditCsv.ReadsBack` | apps/proxy-server/src/audit-csv.ts:130-147 | Whatever the cells hold, the export reads back as exactly its rows and cells |
| `AuditCsv.ExportIsInjective` | apps/proxy-server/src/audit-csv.ts:130-147 | Two different logs never export to the same text |
| `AuditCsv.BareReadsBackIff` | apps/proxy-server/src/audit-csv.ts:131-139 | Unquoted, a value reads back as itself exactly when it holds no quote, comma, CR or LF |
| `AuditCsv.BareIff` | apps/proxy-server/src/audit-csv.ts:131-139 | A value is printed without quotes exactly when it has none of the four characters and no white space at either end |
| `Calendar.DateOfMakeDay` | apps/proxy-server/src/audit-cli.ts:205-206 | A date that exists comes back from its day number |
| `Calendar.DayOrderIsDateOrder` | apps/proxy-server/src/audit-cli.ts:205-206 | Existing dates are in the order of their days, no two on the same one |
| `Calendar.DayAfter` | apps/proxy-server/src/audit-cli.ts:205-206 | Each day's date is the calendar's next after the day before, from 1970-01-01 at day 0 |
| `TimeBound.AcceptsExactlyRealDates` | apps/proxy-server/src/audit-cli.ts:193-214 | A bare date is accepted exactly when it exists and its year is at least 100, and then means the whole of its day |
| `TimeBound.TextOrderIsTimeOrder` | apps/proxy-server/src/audit-cli.ts:193-214 | Accepted dates sort as text in the order of time |
| `TimeBound.WindowsTileTime` | apps/proxy-server/src/audit-cli.ts:210-214 | Every instant of the years 100 to 9999 is in the window of exactly one accepted date |
| `TimeBound.WindowIsADay` | apps/proxy-server/src/audit-cli.ts:210-214 | A window is one day of milliseconds, its last one included |
| `TimeBound.EpochBound` | apps/proxy-server/src/audit-cli.ts:205-206 | Time is counted from the beginning of 1970-01-01 |
| `Drift.Show` | apps/proxy-server/src/drift-cli.ts:196-227 | One comparison a model, of one channel's rows or of all |
| `Drift.Days` | apps/proxy-server/src/drift-cli.ts:240-265 | One comparison a day, of one model's rows |
| `Drift.KeysAre` | apps/proxy-server/src/drift-cli.ts:212-212 | The groups' keys are the rows' keys, each once, in order |
| `Drift.GroupsPartition` | apps/proxy-server/src/drift-cli.ts:220-225 | Whatever is counted, the groups' counts add up to the rows' |
| `Drift.GroupingConserves` | apps/proxy-server/src/drift-cli.ts:172-194 | Turns, every token tier and reported cost are conserved by grouping |
| `Drift.DaysAgainstShow` | apps/proxy-server/src/drift-cli.ts:186-265 | The days' reported figures sum to the model's; its computed figure is at least the days' sum and at most a micro-USD more for each day but one |
| `Drift.ShowHasTheLine` | apps/proxy-server/src/drift-cli.ts:220-227 | That line is the one `show` prints for the model |
| `Drift.CostIsLinear` | packages/schema/src/price-table.ts:177-184 | Before the truncation, summed counts cost what the rows cost together |
| `Drift.PricedPerMillion` | packages/schema/src/price-table.ts:177-184 | A million tokens of a tier cost that tier's price |
| `Drift.PrintedInNano` | apps/proxy-server/src/drift-cli.ts:186-194 | The computed figure is in nano-USD |
| `Drift.PrintedUnderItsKey` | apps/proxy-server/src/drift-cli.ts:220-225 | Each comparison is printed under its own key, in the keys' order |

## Left out

- UTF-8: the log decoders work on bytes; the batch decoder decodes a whole stream and the follower a frame at a time, which can differ on a character cut by a frame.
- HTTP, TLS, unix sockets, SQLite, Slack and provider SDKs: only the step-level contracts their callers rely on.
- The hop's answer to requests other than CONNECT, its dial and the bytes of a tunnel.
- `isEgressAllowed`: an arbitrary predicate over a host and a list of patterns.
- `writeSync` is taken to write everything or to throw, since its return value is ignored.
- File modes, symbolic-link ownership, certificate contents and fingerprints; a symbolic link under a name is an entry like any other.
- Certificate cache: one entry at a time; `cpSync` copies files of one flat directory in any order, and a recursive removal is one step; the hash is taken as injective, although joining the arguments with spaces is not.
- `CertCache.MarkerMeansWhole`: for runs in which no removal hits, because of the others it is false; which schedules are such runs is `CertCache.RulesSpare` and `CertSchedules.MarkerSafeIff`.
- Certificate cache: mints of one request write the same file names; a copy into an entry that is gone throws, although one that has not begun would make the directory again, which no run without a removal that hits comes to.
- Atomic files: no temporary's name is a target's, and the results on replacing allow up to two callers on one temporary, because with three they are false.
- Sandbox runs: the container specification (memory, cpu, tmpfs, environment), the caps' ceiling and its report; the logs' contents, which are `DockerLogs`; a `create` whose answer is lost leaves a container its run cannot name.
- `SandboxRunResults.TeardownIsExact`: only for runs whose `build` succeeded, because a failed one leaves its hop.
- Sandbox runs: a container counts as attached to its networks from its creation, started or not; on a daemon that attaches it only when it starts, a hop that never started would not keep its network.
- Sandbox runs: run ids differ, and no run's network is named like the deployment's egress network.
- Rebuild: argument checks and messages, the usage report itself; nobody else writes the store during a run.
- Environment files: carriage returns and Unicode line terminators are outside the laws of a merge (`.` does not match them); names are identifiers and no value spans two lines.
- Ingest: what the four queued passes do, display names beyond being stored, approval cards and checklists, and how a session is opened; a channel whose store cannot be opened is `hasStore == false`.
- `IngestLoop.LoopQuiesces`: for tasks that each post a bounded number of times.
- Messages: the mirror is of orderly runs, in which no write of the store fails, no message comes after its own revision, as `apps/server/src/ingest.ts:412-417` says of Slack, and none is delivered again after its deletion.
- The gateway's mapping of Slack events: it is taken to deliver each event once and to send the app's own posts as messages only.
- `timeBound` on instants with a zone, which go through `Date.parse`; the other filters of the audit command.
- The CSV column table and `isoTime`: a row is any non-empty list of cells.
- Drift: the wording of a difference, dollar formatting, and reading the database.
- Environment readers, argument parsing, usage text and composition roots; the rest of the end-to-end harness and the site.
