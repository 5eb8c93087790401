# PolyON-Core verification

A Dafny model of the stateful algorithms behind PolyON-Core, the API server of the PolyON
platform, with proofs of what they promise. One module stands for one component:

- `FirewallText`, `DomainRouters`, `Firewall`: the service firewall. A one-pass line automaton comments router
  blocks out of Traefik's YAML; a state machine around it keeps exposure flags, the saved base
  and the installed text.
- `EnvFile`: the `.env` parser, and the writer that merges settings into an existing text.
- `BuildOutput`, `LogFanOut`: the output of build commands, masked and cut into lines as it
  arrives, and the publish/subscribe hub that hands the lines to viewers.
- `ModuleDeploy`, `ModuleDetails`, `ModuleNeighbours`, `ModuleHistory`, `ModuleLifecycle`: creating and deleting
  a module's cluster objects, what these objects say, modules side by side in one cluster, histories of tables and cluster, and the install and
  uninstall handlers that make them.
- `DockerStream`: Docker's multiplexed log stream.
- `MailHistory`: delivery and ingest log lines folded into items, and the paging of the list.
- `HealthChecker`: edge-triggered alerts over one set of known keys.
- `RedisTable`, `RedisAllocator`: the allocation of Redis databases to modules.
- `JwksCache`: the per-realm cache of signing keys (JWK Sets, section 5 of RFC 7517).
- `AlertRules`: the editor of Prometheus' rule file.
- `SentinelAgent`: starting, stopping and restarting the Sentinel agent.
- `GoStrings`, `Wrappers`: the parts of Go's `strings` package in use, and an option type.

Objects whose methods change them are classes here, loops are loops, and each method is tied
to a specification on values about which the lemmas speak. The clock, random values, file,
database, cluster and network calls are parameters that say how each call turns out. Where
several goroutines work on one object, a method without effect of its own (`Others`,
`LoopsGoOn`) stands for whatever they may do between two steps: callers only know what its
contract says, and every method of the class keeps to that contract.

## What the proofs found

Several natural claims do not hold of the code without a condition; the conditions proved are exact.

- Blocking a router does not always comment out its block. A key line is commented out exactly
  when it stands at five to eight spaces in a routers section, or deeper and inside another blocked block
  (`KeyLineIsMarked`, `RouterIsMarked`). The comment in the code counts four spaces as a router key too, but
  at four or fewer the line ends the section, and what follows is never blocked (`ShallowKeysAreNeverBlocked`).
  The domain routers that the firewall itself injects are of that kind, so that no setting ever blocks them
  (`InjectedRoutersAreNeverBlocked`). And a block is commented out as a whole exactly when it is uniform to
  the scan: an inner `tls:` at eight spaces reads as another key and leaves the rest of its router in force
  (`BlockIsMarked`, `OrdinaryBlockIsMarked`).
- Masking removes a token from every text exactly when the token neither begins nor ends with a
  star nor contains three in a row (`MaskingIsSafe`).
- Masking chunk by chunk does what masking the whole output does exactly when no replacement runs
  across a cut; a token cut in two is logged in full (`PiecewiseSteps`, `PiecewiseMasking`, `CutTokenLeaks`).
- Deleting a module restores the cluster exactly when nothing in it could be taken for the module's
  (`DeleteUndoesDeploy`). Module ids that go on from one another after a hyphen get their claims mixed up: the
  exact conditions for sweeping, sharing and surviving are `ClaimIsSweptWhen`, `ClaimIsSharedWhen`,
  `DeletionKeepsIntact` and, over histories, `StaysIntact` and `DeletedModuleLeavesNoTrace`.
- After a partial deployment an immediate retry succeeds only if creating the secret had failed before
  (`RetrySucceedsWhen`); later ones fail for as long as the secret is there (`SecretIsThere`, `RetryNeedsDeletion`), and
  after a deletion nothing stands in the way (`RetryAfterDeletion`).
- Uninstalling keeps everybody's requirements met exactly when nobody depends on the module
  (`UninstallKeepsClosed`).
- A very large page number wraps around and can show the first page again, or panic (`Paginate`,
  `PageCanWrapToTheBeginning`). Every request shows the same list exactly when no two different
  items share a timestamp (`SortingIsDetermined`, `TiesCanRepeatAnItem`).
- Every Prometheus poll that works forgets the pods already alerted, so that a bad pod is alerted again in that
  tick: pods are alerted exactly on the edges since the latest working poll (`PodAlertsOnEdges`,
  `PodAlertsSinceLatestPoll`, `WorkingPollRepeatsPodAlerts`).
- A Docker stream that is cut inside a header before any payload came returns header bytes as
  text (`StripTruncated`).
- Creating and then deleting a rule loses a group that was empty before (`CreateThenDelete`), and
  an update may give two rules of a group the same name (`UpdateKeepsUnique`).
- A stopped Sentinel agent shows "stopped" exactly as long as no loop reports that was still going
  when its channel was closed (`StaysStopped`, `QuietAgentStaysAsItIs`, `StoppedAgentCanLookAlive`).
- Settings written come back exactly when they are well formed (`ReadAfterWrite`).
- An ingress may name a port that its service does not have (`IngressPortResolves`).
- Deprovisioning a module called `system`, `core` or `litellm` frees a reserved database
  (`ReleaseKeepsInv`).

## Model

| member | source | states |
|---|---|---|
| FirewallText.CommentOut | internal/api/firewall.go:236-315 | the automaton with three variables puts the mark before exactly the lines that stand in the block of a blocked router: its key line at five to eight spaces in a routers section, and below it blank lines, comments and deeper lines that are neither keys nor headers; all other lines stay |
| FirewallText.CommentedLines | internal/api/firewall.go:236-315 | what is commented out, read off trimmed text and indentation of the lines alone |
| FirewallText.ScanLine | internal/api/firewall.go:243-314 | what one line does to the three variables, branch by branch in the order of the code |
| FirewallText.InSectionIsInRouters | internal/api/firewall.go:247-285 | the section flag means that a routers header came before and no section end since |
| FirewallText.OpenKeyIsOpen | internal/api/firewall.go:287-312 | a scan that never looks at the blocked set finds the one key line whose block stands at each position, or that there is none |
| FirewallText.HitIsBlocked | internal/api/firewall.go:287-312 | the verdict of that scan agrees with the definition of ownership |
| FirewallText.OwnerIsUnique | internal/api/firewall.go:236-315 | a line has at most one owning router key |
| FirewallText.BlockingIsAdditive | internal/api/firewall.go:205-222 | blocking a union of keys comments out the union of the lines, more keys never fewer lines, and disjoint key sets disjoint lines |
| FirewallText.SplitRender | internal/api/firewall.go:236-318 | the rendered text has the lines of the base, one for one, apart from the marks |
| FirewallText.NothingBlocked | internal/api/firewall.go:224-233 | with no blocked keys the general loop gives the base byte for byte, as the early return does |
| FirewallText.EraseUndoesRender | internal/api/firewall.go:236-318 | deleting the marks restores the base if and only if each base line that already had the mark is a blocked one |
| FirewallText.RenderIsLocal | internal/api/firewall.go:236-315 | a line looks the same for two key sets that agree on its owner |
| FirewallText.NothingOwnedAfterSectionEnd | internal/api/firewall.go:272-285 | after a section end no line is owned until the next routers header |
| FirewallText.ShallowKeysAreNeverBlocked | internal/api/firewall.go:279-288 | what follows a key line at four spaces or fewer is never commented out before the next routers header |
| FirewallText.KeyLineIsMarked | internal/api/firewall.go:279-311 | the key line of a blocked router is commented out if and only if it stands at five to eight spaces in a routers section, or deeper and inside a less deep blocked router's block |
| FirewallText.RouterIsMarked | internal/api/firewall.go:245-311 | its whole block is commented out if and only if, in the first case, it is uniform to the scan, and in the second always |
| FirewallText.BlockIsMarked | internal/api/firewall.go:245-311 | the whole block of a blocked router is commented out if and only if inside it no header stands, every further key line names a blocked router, and no line falls back to the key line above it |
| FirewallText.OrdinaryBlockIsMarked | internal/api/firewall.go:245-311 | when no inner key line names a blocked router: if and only if no line inside is a key line or a header to the scan |
| DomainRouters.InjectIsIdempotent | internal/api/firewall.go:139-197 | injecting the domain routers into a text that has them changes nothing, for every text and every pair of domains |
| DomainRouters.InsertSettles | internal/api/firewall.go:148-191 | after a conditional insertion the text has the key or no place for the block, and the same stays true of every other block |
| DomainRouters.InjectedKeyEndsSection | internal/api/firewall.go:149-191 | the key line of each injected domain router is a section end to the scan |
| DomainRouters.InsertAddsLines | internal/api/firewall.go:170-196 | an insertion keeps all lines of the text in order and puts the lines of the block between two of them |
| DomainRouters.InsertGoesBehindFirst | internal/api/firewall.go:170-196 | a block goes in right behind the first routers header at two spaces |
| DomainRouters.InjectChangesNothing | internal/api/firewall.go:147-196 | nothing is injected for a domain that is not set or whose key is there, or where there is no such header |
| DomainRouters.BlockLines | internal/api/firewall.go:148-195 | the lines that the three routers of a domain bring, word for word |
| DomainRouters.InjectedRoutersAreNeverBlocked | internal/api/firewall.go:147-315 | whenever the domain routers are injected, their key lines stand in the text, and no set of blocked keys ever comments out a line from there to the next routers header |
| Firewall.StandardHasOneServiceEach | internal/api/firewall.go:30-76 | in the shipped tables no router key belongs to two services |
| Firewall.StandardRouterKeys | internal/api/firewall.go:30-76 | the routers that can be blocked, and to which service the odd ones belong |
| Firewall.CollectBlockKeys | internal/api/firewall.go:205-222 | the keys collected are those of the services whose flag is false, in whatever order the map is visited |
| Firewall.Server.ApplyState | internal/api/firewall.go:118-337 | the new base, which is the text as it came from the container, the installed text and success for every way the outside calls turn out |
| Firewall.Server.ToggleService | internal/api/firewall.go:384-425 | the new state and the answer, refusals changing nothing |
| Firewall.Server.BulkToggle | internal/api/firewall.go:428-466 | the new state and the answer for a whole map of flags |
| Firewall.MergeAccepted | internal/api/firewall.go:438-455 | the loop over the request, in any order, overrides the flags by the entries that are not skipped |
| Firewall.AnyRunThenWorkingRequest | internal/api/firewall.go:118-337 | after any run with a saved base, failures included, a request that is carried out installs the text of that base and the current flags |
| Firewall.WorkingRunStaysInSync | internal/api/firewall.go:384-485 | while requests work, the installed text is at every moment the one that belongs to base and flags |
| Firewall.SameFlagsSameText | internal/api/firewall.go:384-485 | two working runs that end with the same flags have installed the same bytes |
| Firewall.OffThenOn | internal/api/firewall.go:384-425 | blocking and exposing again restores the installed text byte for byte |
| Firewall.FirstRequest | internal/api/firewall.go:125-134 | without a saved base a request takes the text that is installed for the base, saves that, and installs what belongs to it and the flags |
| Firewall.RunFromScratch | internal/api/firewall.go:125-337 | a run in which every call works has the text found at the start as its base, and is in sync with it from the first change on |
| Firewall.OffThenOnFromScratch | internal/api/firewall.go:125-425 | blocking as the very first request and exposing again installs what applying alone would |
| Firewall.FirstApplyExposesAll | internal/api/firewall.go:80-109 | with no flags saved, applying installs the text found with the domain routers in it |
| Firewall.RunKeepsFlagsSound | internal/api/firewall.go:384-455 | over every run no essential service is blocked, and no unknown one gets a flag |
| Firewall.BulkIsSingles | internal/api/firewall.go:428-466 | a bulk request ends where its single toggles end, in any order and with repetitions |
| Firewall.ToggleIsExact | internal/api/firewall.go:384-425 | toggling a service decides the lines in its own routers' blocks and leaves all others as they were |
| EnvFile.PrintThenParse | internal/config/config.go:536-553 | a printed entry parses back to itself if and only if key and value are well formed |
| EnvFile.EntryIs | internal/config/config.go:536-602 | a line sets a key to a value if and only if it is key, equals sign and value with white space around both, and the key is well formed |
| EnvFile.ReadEnvFile | internal/config/config.go:591-607 | a key has the value that the last line setting it gives it; comments and blank lines set nothing; nothing for an unreadable file |
| EnvFile.WriteEnvFile | internal/config/config.go:528-559 | the text written is a merge: lines rewritten in place, then each missing setting once in some order |
| EnvFile.ReadAfterWrite | internal/config/config.go:528-607 | reading after writing gives the old settings overridden by the written ones, for every order of the appended entries, if and only if all keys and values written are well formed |
| EnvFile.ParsedIsGood | internal/config/config.go:591-607 | whatever the text, all keys and values read from it are well formed |
| EnvFile.WriteLineByLine | internal/config/config.go:535-551 | a line that sets a written key becomes that key with its new value, every other line stays |
| EnvFile.WriteKeepsOtherLines | internal/config/config.go:535-551 | lines whose trimmed text is empty or begins with a hash sign, and lines of other settings, keep text and position |
| EnvFile.WriteAppendsMissing | internal/config/config.go:552-557 | behind the old lines stands, once each, every written setting that no line sets, and nothing else |
| EnvFile.WriteIsIdempotent | internal/config/config.go:528-559 | writing the same settings twice gives the text of writing them once |
| BuildOutput.StreamOutput | internal/builder/nextjs.go:332-364 | for every way of cutting the output, the buffer is the masked pieces joined and the logged lines are its non-empty lines in order |
| BuildOutput.LogLines | internal/builder/nextjs.go:341-351 | all lines but the last are logged unless empty, and the last one is kept |
| BuildOutput.UnmaskedOutputIsWhole | internal/builder/nextjs.go:382-384 | with masking off the pieces are passed on as they came |
| BuildOutput.MaskedHasNoToken | internal/builder/nextjs.go:381-386 | a token that neither begins nor ends with a star nor contains three in a row occurs nowhere in the masked text |
| BuildOutput.MaskingIsSafe | internal/builder/nextjs.go:381-386 | masking removes the token from every text if and only if the token is of that kind |
| BuildOutput.MaskFirst | internal/builder/nextjs.go:381-386 | masking replaces the first occurrence and goes on behind it |
| BuildOutput.MaskNothing | internal/builder/nextjs.go:381-386 | and without an occurrence changes nothing |
| BuildOutput.PiecewiseSteps | internal/builder/nextjs.go:338 | for every token, masking the pieces takes the steps of masking the whole if and only if no replacement runs across a cut |
| BuildOutput.AlignedMasking | internal/builder/nextjs.go:338 | for every token, both then give the same text |
| BuildOutput.PiecewiseMasking | internal/builder/nextjs.go:338 | for a token that does not begin with a star, they give the same text only then |
| BuildOutput.StarTokenMayAgree | internal/builder/nextjs.go:338 | a token that begins with a star may give the same text otherwise too |
| BuildOutput.UncutTokenMasksAlike | internal/builder/nextjs.go:338 | for every token, masking the pieces equals masking the whole when no occurrence of the token is cut |
| BuildOutput.NoStraddleIsAligned | internal/builder/nextjs.go:338 | it is enough that no occurrence of the token lies across a cut |
| BuildOutput.CutTokenLeaks | internal/builder/nextjs.go:338 | a token cut between any two of its characters comes through in full |
| BuildOutput.OutputLeaks | internal/builder/nextjs.go:338-339 | the buffer shows the token if and only if the masking of the pieces copies some occurrence of it in full |
| BuildOutput.AlignedOutputIsClean | internal/builder/nextjs.go:338-358 | with aligned pieces neither the buffer nor any logged line shows the token |
| LogFanOut.LogStream.Subscribe | internal/builder/logstream.go:21-27 | adds a new open, empty channel that has lost nothing to the list of its key and keeps the hub sound |
| LogFanOut.LogStream.Unsubscribe | internal/builder/logstream.go:30-43 | takes the channel out and closes it unless closed before; the hub stays sound if and only if an open channel leaves under its own key |
| LogFanOut.LogStream.Publish | internal/builder/logstream.go:46-56 | never sends on a closed channel; each open channel of the key takes the line if it has room and counts as overflowed if not, all others stay |
| LogFanOut.LogStream.CloseAll | internal/builder/logstream.go:59-66 | closes each channel of the key exactly once, at this point of the log, and forgets the list |
| LogFanOut.LogStream.Receive | internal/api/sites.go:431-440 | the reader takes lines in order; what it got and what is buffered stays a subsequence of what was published for it, all of it if the buffer was never full |
| LogFanOut.KeepsOneMore | internal/builder/logstream.go:49-55 | appending or dropping one published line keeps got-and-buffered an in-order part of the lines offered |
| LogFanOut.SubsequenceIs | internal/builder/logstream.go:49-55 | an in-order part means lines standing at rising positions |
| LogFanOut.LinesForConcat | internal/builder/logstream.go:46-56 | the lines of a build are those published for it, in order |
| ModuleDeploy.Client.BuildSecret | internal/kube/deploy.go:201-262 | the secret built by the loops, nothing that is set being set again |
| ModuleDeploy.Client.CreateModulePVCs | internal/kube/deploy.go:297-340 | the claims after the loop and whether it got through; existing claims are reused |
| ModuleDeploy.Client.DeployModule | internal/kube/deploy.go:25-69 | the objects and the success after the five steps, for every set of failing calls |
| ModuleDeploy.Client.DeleteModule | internal/kube/deploy.go:72-152 | the objects after all deletions, for every set of failing calls |
| ModuleDeploy.DeployAdds | internal/kube/deploy.go:25-69 | a deployment stopped anywhere adds only objects of the module's names and claims under its label |
| ModuleDeploy.DeleteUndoesDeploy | internal/kube/deploy.go:25-152 | deploying up to any failure and deleting restores the cluster if and only if nothing in it could be taken for the module's |
| ModuleDeploy.RetryFails | internal/kube/deploy.go:264-267 | once the secret was created, deploying again without deleting fails and changes nothing |
| ModuleDeploy.RetrySucceedsWhen | internal/kube/deploy.go:25-69 | an immediate retry succeeds if and only if creating the secret had failed and the retry's own calls succeed |
| ModuleDeploy.RetryAfterDeletion | internal/kube/deploy.go:25-152 | after a deletion a deployment in which no call fails succeeds if and only if all claim sizes can be read |
| ModuleDeploy.DeployedIsConsistent | internal/kube/deploy.go:297-721 | after success every mount has a volume with an existing claim, every key referred to in the module's secret exists, selectors match the pod labels, and ingress and stateful set name the created service |
| ModuleDeploy.IngressPortResolves | internal/kube/deploy.go:343-721 | the ingress sends to a port of the service if and only if the specification lists that port |
| ModuleDeploy.CredentialsAreKept | internal/kube/deploy.go:207-243 | resolved credentials are in the secret unchanged |
| ModuleDetails.DeployedAsSpecified | internal/kube/deploy.go:343-628 | after success workload, pods and service have names, labels, replicas, image, ports, environment, mounts and volumes as the specification lists them |
| ModuleDetails.IngressAsSpecified | internal/kube/deploy.go:631-721 | after success there is an ingress if and only if a subdomain or path prefix is asked for, with that host and path, leading to the module's service |
| ModuleDetails.SecretAsSpecified | internal/kube/deploy.go:201-262 | a key has its resolved value or, without any, the database's; otherwise the first entry of the environment that asks for it counts |
| ModuleDetails.DatabaseCredentials | internal/kube/deploy.go:214-226 | the six entries for a database |
| ModuleDetails.ClaimsAsSpecified | internal/kube/deploy.go:297-340 | a new claim has the size of its first mention, one that was there is left as it is |
| ModuleNeighbours.ClaimIsSweptWhen | internal/kube/deploy.go:132-148 | deleting one module sweeps a claim of another by name if and only if the other's id goes on from its id, or its id from the other's and the claim name from the rest |
| ModuleNeighbours.ClaimIsSharedWhen | internal/kube/deploy.go:297-340 | two modules share a claim if and only if one id goes on from the other and the claim names make up for it |
| ModuleNeighbours.DeletionKeepsIntact | internal/kube/deploy.go:72-152 | a module stays intact under a deletion if and only if none of its claims is swept and, were it its own, all other deletions fail |
| ModuleNeighbours.OwnClaimsAreSpared | internal/kube/deploy.go:72-152 | with claims under its own label it survives another's deletion if and only if no claim name has the other's prefix |
| ModuleNeighbours.DeploymentKeepsIntact | internal/kube/deploy.go:25-69 | no deployment harms an intact module, not even its own again |
| ModuleNeighbours.DeploymentGoesItsWay | internal/kube/deploy.go:25-69 | a deployment takes the course that it would take had another module, whose claims it does not touch, been deleted before |
| ModuleHistory.ActiveIsFounded | internal/api/modules.go:324-514 | over every legal history, a module that became active was activated by a handler that had read its row, then seen each requirement as an enabled service or an active module, and then deployed it with success, all that it needs inside the cluster being there |
| ModuleHistory.ActiveSince | internal/api/modules.go:509-514 | an active module was so from the beginning, or was activated and has been active since |
| ModuleHistory.NoCircularActivation | internal/api/modules.go:324-340 | over every legal history, modules that require each other in a circle and are never provided from outside it are never activated |
| ModuleHistory.SecretIsThere | internal/kube/deploy.go:264-267 | over every history a module's secret is there if and only if it was made and has not been deleted since, whatever other modules do |
| ModuleHistory.RetryNeedsDeletion | internal/kube/deploy.go:25-69 | over every history, once a deployment got past its first step none of the module succeeds until its secret was deleted |
| ModuleHistory.DeletionUndoesDeployment | internal/api/modules.go:425-617 | a module deployed and then deleted leaves the cluster as it was if and only if nothing there could be taken for its own |
| ModuleHistory.DeletedModuleLeavesNoTrace | internal/api/modules.go:425-617 | with other modules deployed and deleted in between, the cluster is in the end as if only they had been at work, provided none of their claims bears the module's prefix |
| ModuleHistory.StaysIntact | internal/kube/deploy.go:25-152 | over every history an intact module stays so if and only if each deletion spares it |
| ModuleHistory.AloneIsReplay | internal/api/modules.go:219-514 | with nobody else at work a handler's own steps lead from the tables before to the tables after |
| ModuleLifecycle.Platform.Install | internal/api/modules.go:219-514 | with any handlers at work in between: the exact steps of this handler for each outcome, a refused request taking none; the row it read, and each of its requirements met at a real moment between that read and the first step; a requirement reported missing was seen unmet; alone: the exact tables |
| ModuleLifecycle.Platform.CheckDependencies | internal/api/modules.go:324-340 | getting through means that each requirement was met at a real moment during the check; a missing one was seen not enabled and then not active |
| ModuleLifecycle.Platform.FindOrRegister | internal/api/modules.go:237-277 | the row found, or registered from the catalog as the handler's one step |
| ModuleLifecycle.Platform.InstallFound | internal/api/modules.go:279-346 | from the row read to the end of the checks: an active module is turned down, a missing requirement is named, and nothing is done before all are met |
| ModuleLifecycle.Platform.CarryOut | internal/api/modules.go:348-514 | the steps from the installing status on; the module is activated only as the last one, after a successful deployment |
| ModuleLifecycle.Platform.Uninstall | internal/api/modules.go:561-678 | the outcome and the handler's exact steps, whatever others do; only an active module is uninstalled; alone: the exact tables |
| ModuleLifecycle.InstallAlone | internal/api/modules.go:348-514 | alone, a refused installation changes no row, a failed one leaves the status error, a successful one active, and no other row is touched |
| ModuleLifecycle.AloneChecksAtOnce | internal/api/modules.go:324-340 | alone, all requirements were met in the one state in which the row was read |
| ModuleLifecycle.LoneInstallDeploys | internal/api/modules.go:425-514 | alone, a successful installation leaves the cluster that its deployment makes of the one before |
| ModuleLifecycle.LoneInstallIsIntact | internal/api/modules.go:425-514 | and all that the module needs inside the cluster is there |
| ModuleLifecycle.LoneInstallAddress | internal/api/modules.go:315-323 | the module's address is the subdomain asked for, or else the path asked for under the portal's domain, or else what its own specification says |
| ModuleLifecycle.LoneInstallRuns | internal/api/modules.go:424-433 | the module runs as its own specification says, with the credentials resolved for it |
| ModuleLifecycle.LoneInstallShows | internal/api/modules.go:348-353 | while it is deployed its row shows the status installing |
| ModuleLifecycle.LoneUninstallClears | internal/api/modules.go:609-660 | alone, an uninstallation deletes the module's objects, and if no call fails leaves nothing that could be taken for its own |
| ModuleLifecycle.InstallKeepsCircle | internal/api/modules.go:237-277 | an installation never provides a module of a circle from outside if the catalog keeps to the circle |
| ModuleLifecycle.UninstallKeepsClosed | internal/api/modules.go:604-605 | requirements stay met if and only if no other active module needs the one removed as a module |
| ModuleLifecycle.InstallKeepsClosed | internal/api/modules.go:324-340 | installing a module whose requirements are met keeps all requirements met |
| DockerStream.StripDockerHeaders | internal/docker/client.go:561-577 | the loop computes the demultiplexing function and terminates |
| DockerStream.HeaderFields | internal/docker/client.go:563-567 | the size stands in the last four bytes of the header, highest byte first |
| DockerStream.StripUndoesEncode | internal/docker/client.go:561-577 | demultiplexing the encoding of any frames gives the concatenated payloads |
| DockerStream.StripTruncated | internal/docker/client.go:561-577 | a truncated stream gives the payload bytes that arrived if and only if some arrived or no header was cut |
| DockerStream.CollectTruncated | internal/docker/client.go:563-572 | the loop collects the arrived payload bytes and leaves the bytes of a cut header |
| MailHistory.ParseDelivery | internal/api/mail_history.go:122-193 | one item for each queue id, being the fold of its lines, in any order of the map |
| MailHistory.FoldIsFinal | internal/api/mail_history.go:165-180 | the final status is the highest that a line of the id argues for, pending < failed < completed |
| MailHistory.StatusIs | internal/api/mail_history.go:165-180 | completed if a line says completed or dsn-success, else failed if one says dsn-fail or dsn-perm-fail, else pending |
| MailHistory.FoldKeepsFirst | internal/api/mail_history.go:149-163 | sender, recipients and size of an item are those of the first line of its queue id |
| MailHistory.FoldShows | internal/api/mail_history.go:176-180 | time and event are those of the last queue message before anything was decided, or else of the first line |
| MailHistory.StatusIgnoresOrder | internal/api/mail_history.go:165-180 | the final status does not depend on the order of the lines |
| MailHistory.ParseIngest | internal/api/mail_history.go:83-120 | one item for the first line of each message, with its fields, and spam if and only if the event ends so |
| MailHistory.SeenKeyIsInjective | internal/api/mail_history.go:96-100 | the joined key tells messages apart |
| MailHistory.EveryMessageOnce | internal/api/mail_history.go:83-120 | every message of the log is listed and none twice |
| MailHistory.FirstsAreEarliest | internal/api/mail_history.go:96-100 | the line kept is the earliest of its message |
| MailHistory.Paginate | internal/api/mail_history.go:204-259 | the page served is the page meant, with a limit from 1 to 500 or else 100, if and only if its start fits into an int or wraps to beyond the list |
| MailHistory.PagesMakeUpTheList | internal/api/mail_history.go:247-259 | the pages joined are the list without gap or overlap, and later pages are empty |
| MailHistory.PageCanWrapToTheBeginning | internal/api/mail_history.go:248 | a page far past the end may start at the beginning again |
| MailHistory.SortingIsDetermined | internal/api/mail_history.go:225-227 | every request sorts into the same list if and only if no two different items share a timestamp |
| MailHistory.LessIs | internal/api/mail_history.go:225-227 | the order of timestamps is that of texts: by the first difference, or by the end |
| MailHistory.TiesCanRepeatAnItem | internal/api/mail_history.go:225-259 | at every tie, requests for neighbouring pages may show one of its items twice |
| HealthChecker.Checker.CheckPrometheus | internal/monitor/health_checker.go:54-126 | after a poll that works the known keys are name and instance of the firing entries; one alert is raised for each of them not known before, and says what the first firing entry of its key says |
| HealthChecker.Checker.CheckContainers | internal/monitor/health_checker.go:128-192 | known keys and alerts after the pods, or else the containers, are gone through; each pod of unrepeated name is alerted if and only if it is not running or not ready and was not known, critical if and only if not running; containers likewise by state and an unhealthy status |
| HealthChecker.PodIsAlerted | internal/monitor/health_checker.go:134-163 | the same, and that such a pod is known afterwards if and only if it is not running or not ready |
| HealthChecker.ContainerIsAlerted | internal/monitor/health_checker.go:165-192 | the same for containers when pods cannot be listed |
| HealthChecker.PollRaisesRisingEdges | internal/monitor/health_checker.go:54-126 | over any run of ticks a poll raises exactly one alert for each rising edge since the last poll that worked |
| HealthChecker.KnownPrometheusKeys | internal/monitor/health_checker.go:54-126 | the known Prometheus keys are those of the latest poll, however pods come and go |
| HealthChecker.KnownKeys | internal/monitor/health_checker.go:54-163 | over any run of ticks the known keys are those of the latest working poll with the observations since |
| HealthChecker.PodAlertsOnEdges | internal/monitor/health_checker.go:119-163 | over any run of ticks, polls working or not, a pod is alerted if and only if it is bad and was not at its latest observation since the latest working poll, nor its key known from that poll |
| HealthChecker.PodAlertsSinceLatestPoll | internal/monitor/health_checker.go:119-163 | with keys apart, a pod is alerted exactly on its edges since the latest working poll |
| HealthChecker.KnownMeansLastSeenBad | internal/monitor/health_checker.go:134-163 | a key is known if and only if its latest observation was bad |
| HealthChecker.WorkingPollRepeatsPodAlerts | internal/monitor/health_checker.go:119-125 | in a tick with a working poll every bad pod is alerted, known or not |
| RedisTable.CacheProvider.MigrateSchema | internal/prc/engine.go:153-158 | the seeding statements in order, any of which may fail |
| RedisTable.SeededRows | internal/prc/engine.go:153-158 | seeding makes the sixteen rows, reserves the free ones of the first three, and leaves all else, less the statements that fail |
| RedisTable.CacheProvider.SelectLeastFree | internal/prc/cache.go:33-38 | the least free row, or none if and only if none is free |
| RedisTable.CacheProvider.Provision | internal/prc/cache.go:24-71 | automatic allocation takes the least free row and fails if and only if none is free; a given number is taken if and only if it is valid and free |
| RedisTable.CacheProvider.Deprovision | internal/prc/cache.go:73-81 | afterwards the free rows are those free before and the module's own, all other rows keep their owner, and a failing call changes nothing |
| RedisAllocator.SeedingStarts | internal/prc/engine.go:153-158 | seeding the empty table sets it up if and only if no statement fails |
| RedisAllocator.SeedingIsNoOp | internal/prc/engine.go:153-158 | seeding again changes nothing if and only if all rows exist and the first three are taken |
| RedisAllocator.FailingSeedingIsNoOp | internal/prc/engine.go:153-158 | then it changes nothing whichever of its statements fail |
| RedisAllocator.ReleaseKeepsInv | internal/prc/cache.go:73-77 | deprovisioning keeps the reserved rows if and only if the module has no reserved name |
| RedisAllocator.ReleaseFreesOwnSlots | internal/prc/cache.go:73-77 | deprovisioning frees exactly the module's own rows |
| RedisAllocator.RunKeepsInv | internal/prc/cache.go:24-81 | over every run, failing operations included, there are sixteen rows, three of them reserved, and seeding is a no-op |
| RedisAllocator.RunKeepsOwner | internal/prc/cache.go:24-81 | over every run an owner keeps its row until its own deprovisioning |
| JwksCache.Cache.Lookup | internal/auth/oidc.go:137-149 | a hit is a key stored for this realm less than a TTL ago |
| JwksCache.Cache.BuildKeys | internal/auth/oidc.go:194-213 | an id has the key that its last usable member brings |
| JwksCache.CollectedKeysWereServed | internal/auth/oidc.go:194-213 | a kept key is a usable member of the set served, and every usable id is kept |
| JwksCache.Cache.Refresh | internal/auth/oidc.go:161-234 | a fetch replaces this realm's keys and expiry and no other's; a failed one changes nothing; the legacy alias stays the admin realm's set |
| JwksCache.Cache.GetPublicKey | internal/auth/oidc.go:136-152 | with others refreshing in between, a key returned was stored for this realm less than a TTL ago or fetched by this call; an absent key id always forces a fetch |
| JwksCache.PutKeepsBacked | internal/auth/oidc.go:215-228 | what is cached for each realm stays what its latest fetch brought |
| AlertRules.Store.Create | internal/api/alert_rules.go:97-157 | the file after creating a rule, or why it is refused |
| AlertRules.Store.Update | internal/api/alert_rules.go:160-219 | the file after replacing a rule, or why it is refused |
| AlertRules.Store.Delete | internal/api/alert_rules.go:222-276 | the file after deleting a rule, or why it is refused |
| AlertRules.DeleteRemoves | internal/api/alert_rules.go:236-254 | a deletion finds its rule if there is one, and then no group of that name has a rule of that name, nor is left empty |
| AlertRules.CreatePuts | internal/api/alert_rules.go:97-140 | a creation is carried out if and only if both names are given and the rule is new, and the rule then stands last in its group |
| AlertRules.UpdatePuts | internal/api/alert_rules.go:181-197 | an update is carried out if and only if its rule is there, and the new rule then stands in its place, keeping the old name if it brings none |
| AlertRules.OthersAre | internal/api/alert_rules.go:118-254 | the other rules are exactly those that do not have both names |
| AlertRules.CreateThenDelete | internal/api/alert_rules.go:118-254 | creating and then deleting restores the file if and only if the group was absent or not empty |
| AlertRules.RunKeepsUnique | internal/api/alert_rules.go:97-276 | unique names survive every sequence of creates, deletes and name-keeping updates |
| AlertRules.UpdateKeepsUnique | internal/api/alert_rules.go:181-197 | an update keeps names unique if and only if the new name is the old one or new to the group |
| AlertRules.CreateKeepsOthers | internal/api/alert_rules.go:118-140 | creating keeps all other rules in content and order |
| AlertRules.DeleteKeepsOthers | internal/api/alert_rules.go:236-254 | deleting keeps all other rules in content and order |
| AlertRules.UpdateKeepsOthers | internal/api/alert_rules.go:181-197 | a name-keeping update keeps all other rules in content and order |
| SentinelAgent.Agent.Start | internal/monitor/sentinel_agent.go:136-185 | afterwards the agent runs if and only if the configuration allows it; every earlier stop channel is closed, none twice; apart from reports of loops the writes to health are exactly these |
| SentinelAgent.Agent.Stop | internal/monitor/sentinel_agent.go:188-197 | afterwards no stop channel is open and the agent is not running; its one write to health, if it ran; lingering loops may report meanwhile |
| SentinelAgent.Agent.Restart | internal/monitor/sentinel_agent.go:200-204 | whatever others do in between, at most one stop channel is open afterwards and the flag says whether one is stored |
| SentinelAgent.StaysStopped | internal/monitor/sentinel_agent.go:93-119 | from a stop until the next start health shows "stopped" if and only if no loop reports in between |
| SentinelAgent.Agent.QuietAgentStaysAsItIs | internal/monitor/sentinel_agent.go:210-236 | a stopped agent none of whose loops is still going keeps its health |
| SentinelAgent.Agent.StoppedAgentCanLookAlive | internal/monitor/sentinel_agent.go:102-119 | a loop still going on a closed channel may give a stopped agent any other health |
| GoStrings.JoinSplit | internal/api/firewall.go:236-318 | joining the lines of a text gives the text |
| GoStrings.SplitJoin | internal/api/firewall.go:236-318 | splitting joined single lines gives the lines |
| GoStrings.SplitConcat | internal/builder/nextjs.go:340-341 | the lines of a concatenation are glued at the seam |
| GoStrings.TrimSpaceIs | internal/config/config.go:536-602 | trimming gives the one trimmed text that white space surrounds |
| GoStrings.IndentIs | internal/api/firewall.go:247-266 | the indentation is the number of leading spaces |
| GoStrings.ReplaceFirstSeam | internal/api/firewall.go:170-196 | replacing once replaces the first occurrence, if there is one |
| GoStrings.ToLowerIs | internal/monitor/health_checker.go:165-192 | lower-casing changes ASCII capitals in place and nothing else |

## Left out

- Text is a sequence of Unicode characters, in `BuildOutput` of bytes; invalid UTF-8 is not modelled, and lower-casing covers ASCII letters.
- The YAML, JSON and regular-expression codecs: rule files, state files and matched log lines are taken as parsed records; a malformed state file is not modelled.
- How the firewall's text reaches the container (standard input, then base64 for texts up to 60000 characters): a write either succeeds or leaves any text behind.
- The domain settings are fixed during a run of the firewall.
- Start and wait errors of build commands; the reading loop in between is modelled.
- LogFanOut.LogStream: methods are atomic steps. A reader that receives while a line is being published is ordered before or after that publish.
- LogFanOut.LogStream.Publish: overlapping publishes are excluded. The code publishes under a shared read lock, so two of them on one key, such as a cancelled build that still logs and its successor, may reach two channels in different orders.
- Probes, resource limits, quantity parsing and namespaces of cluster objects; a panic on a malformed resource limit is not modelled, nor are objects that the cluster deletes on its own.
- ModuleLifecycle.Platform.Install: the branch that cleans up an active module without a deployment ends the model's handler (`Orphaned`), because it goes on with a record that it has deleted; navigation, domain and component rows, events and post-install provisioning are left out, and the resource provisioning saga is one call that succeeds or fails.
- ModuleLifecycle.Platform.DeployModule: deploying and deleting are one step each for the other handlers, although their calls to the cluster are separate.
- BuildOutput.PiecewiseMasking: tokens that begin with a star may give the same text although the steps differ (StarTokenMayAgree); for them the if-and-only-if is stated about the steps (PiecewiseSteps), and about the text only the direction of AlignedMasking.
- ModuleDeploy.DeployedIsConsistent: references of the environment to secrets of other owners, which may dangle.
- The legacy secret update after installation, detection of orphaned stateful sets, the setup wizard and backups.
- MailHistory: reading the log files, the address list parser and the search filter; the paging laws hold for any list. A list of nearly 2^63 items is excluded.
- HealthChecker: alert texts and details, and the missing store that skips a check.
- RedisTable.CacheProvider: each SQL statement is one atomic step, so two automatic allocations that overlap inside the database are not modelled; URL and host of the credentials are left out.
- JwksCache.Cache: decoding of keys, signature checks and token claims; keys are opaque pairs of numbers.
- AlertRules.Store: reload of Prometheus after a write, which does not change the file, and the decoding of slashes in names.
- SentinelAgent.Agent: what a loop does in one cycle, apart from its write to health.
- Proxy handlers, the site builder's map of active builds, and the other providers of the resource claim engine.
