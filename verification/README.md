# DronService: verified model

DronService is the control plane of a video gateway: it edits the MediaMTX
configuration, borrows temporary addresses in camera subnets, starts previews and
proxies that expire, updates itself, keeps metric history and stores cameras.  This
project models those cores in Dafny and proves what they keep over every input and
every run.  `dafny verify dfyconfig.toml` checks it.

Loops of the source are methods with loops, proved against specification functions;
objects whose methods change fields are classes; concurrent parts are state machines
whose steps are the sections under a lock, with timers, lost replies, failed writes
and crashes as steps or arguments.  Theorems are about all runs of those steps.

| files | part |
|---|---|
| `Text`, `PathsEditor`, `PathsLaws`, `PathsRoundTrip`, `PathsMap`, `PathsValues`, `PathsComments`, `PathsRename`, `PathsNames`, `PathsExamples`, `ConfigStore` | the line editor for the `paths` section: scanning, splicing, round trips, refinement of a map, rename with compensation |
| `Decimal`, `AnalogCommand` | the ffmpeg command printer, YAML quoting and the command parser |
| `IPv4`, `AddressPool`, `HelperChecks`, `LeaseProtocol`, `LeaseHistory` | address selection, the helper's checks and the lease protocol |
| `PreviewManager`, `Separation` | preview sessions; previews and public streams do not interfere |
| `ProxyManager` | camera proxies with renewals and late timers |
| `UpdateScript`, `VersionOrder` | the transactional update and the version order |
| `History`, `RawHistory` | minute buckets, hourly means, bounded raw history behind the cache gate |
| `CameraStore`, `CameraRecords`, `Discovery` | the camera store and the merge of discovery answers |

## Where the code does not meet the expected law

Each of these has its exact condition and an input, and the code is modelled as it is.

- SetPath restores on DeletePath, and is idempotent, only when the block is not
  written behind an unterminated last line; the newline guard
  (internal/mediamtx/config_file.go:143) helps only names that were absent
  (`SetDeleteRoundTrip`, `SetSetIsLast`).
- DeletePath removes exactly its entry only when the entry is contiguous
  (`DeleteRefines`), and keeps unrelated comments only when none stands inside the
  block it cuts: the scan goes on at a line with one leading space
  (`RemovalKeepsComments`, `CommentIsDeletedWithEntry`).
- A rename whose old name is missing is undone only if the new name was absent
  (`MissingRenameUndone`); otherwise the entry under the new name is lost
  (`RenameOntoExistingLosesIt`, `RenameOntoEntry`).
- The helper accepts one family of requests outside RFC 1918 subnets: a /11 whose
  upper half is 172.16/12 (`ClientRequestValid`).
- A failure at deploy/update-dronservice.sh:208-209 leaves `current` at the new
  release, and a later one changes the links if the binary was linked straight at a
  release (`LinksRestored`, `CurrentRestored`).
- Save without an id and without a password clears the stored password of a camera
  that was added by address (`SaveKeepsPasswordsIff`); requests through
  SaveWithCameraUpdate do not (`UpdateKeepsPasswords`).
- A restart forgets minute-bucket samples that repeated the last appended point
  (`Service.Restart`, `RestartLosesRepeat`).
- The merged initialization status of a device depends on the order of its answers
  unless they do not disagree or stand one against one (`StatusFixedIff`).

## Model

| member | source | states |
|---|---|---|
| PathsEditor.PathsSection | internal/mediamtx/config_file.go:181-204 | finds the one `paths` section of any line sequence, or reports that there is none or more than one |
| PathsEditor.SectionFound | internal/mediamtx/config_file.go:181-204 | the section is exactly the unique `paths:` line and the lines up to the next line that is neither indented nor a comment |
| PathsEditor.NoSectionFound | internal/mediamtx/config_file.go:181-204 | no `paths:` line means no section |
| PathsEditor.ManySectionsFound | internal/mediamtx/config_file.go:181-204 | two `paths:` lines are an error |
| PathsEditor.ScanNames | internal/mediamtx/config_file.go:156-159 | the index of the first line of the section that trims to `name:` |
| PathsEditor.ScanBlock | internal/mediamtx/config_file.go:164-174 | how far the entry's body reaches |
| PathsEditor.MatchAtFirst | internal/mediamtx/config_file.go:156-159 | that index names the entry and no earlier line of the section does |
| PathsEditor.CutToIs | internal/mediamtx/config_file.go:164-174 | the block ends at the first line that ends a block, and nowhere else |
| PathsEditor.RemovePathBlock | internal/mediamtx/config_file.go:150-179 | the removal loop computes the specification RemoveBlock, errors and absence included |
| PathsEditor.ScanAllOthers | internal/mediamtx/config_file.go:136-142 | the insertion point: in front of `all_others`, or the end of the section |
| PathsEditor.ReplacePathBlock | internal/mediamtx/config_file.go:126-148 | the insertion loop computes the specification ReplaceBlock, with its newline guard |
| PathsEditor.RenderedLines | internal/mediamtx/config_file.go:206-228 | the string builder emits exactly the comment line, the key line and one line per present field; `RenderedSays` reads them back |
| PathsValues.RenderedSays | internal/mediamtx/config_file.go:206-228 | a reader of the six keys finds source and runOnDemand single-quoted and unquoting to the update's own text, the flags as yes, the timeouts plain; a key is absent exactly when its field is empty or false, and no further line is there |
| PathsValues.QuotedReads | internal/mediamtx/config_file.go:230-232 | reading a quoted scalar behind any key gives back the text that was quoted |
| PathsLaws.RenderedIsBlock | internal/mediamtx/config_file.go:206-228 | every rendered block of single-line fields has the shape the scanner recognizes as one entry and never ends a section |
| PathsLaws.FindSplice | internal/mediamtx/config_file.go:181-204 | exchanging lines inside the section moves its end by the difference and nothing else |
| PathsLaws.OwnBlockIsCut | internal/mediamtx/config_file.go:150-179 | a rendered block in a section is found and cut out whole, with its comment, by the next removal |
| PathsLaws.RemovedLines | internal/mediamtx/config_file.go:150-179 | a removal cuts exactly the entry's own lines out of the section (its managed comment, its key line, the lines up to the next one that ends a block) and keeps every other line in order |
| PathsLaws.CutIsOwn | internal/mediamtx/config_file.go:160-174 | what those own lines are, and that the scan stops at a line that ends a block |
| PathsLaws.SetLines | internal/mediamtx/config_file.go:42-57 | a set writes exactly the rendered lines at one place and keeps every line the removal left, comments and order included |
| PathsLaws.SetThenRemove | internal/mediamtx/config_file.go:126-179 | deleting what was just set gives back the text that was left before the insertion |
| PathsLaws.SetCompletes | internal/mediamtx/config_file.go:143-145 | for an absent name the newline guard makes the edit equal to that on the newline-terminated file |
| PathsRoundTrip.SetDeleteRoundTrip | internal/mediamtx/config_file.go:126-179 | set then delete of an absent name restores the file byte for byte if and only if the block is not written behind an unterminated last line |
| PathsRoundTrip.SetSetIsLast | internal/mediamtx/config_file.go:126-179 | two sets of one name equal the last one if and only if the first does not glue its block to other text |
| PathsRoundTrip.GluedToPathsLine | internal/mediamtx/config_file.go:143-145 | a block glued to an unterminated `paths:` line leaves a file without a section |
| PathsRoundTrip.GluedToSection | internal/mediamtx/config_file.go:143-145 | a block glued to an unterminated line of the section changes that line for good |
| PathsMap.ParseConcat | internal/mediamtx/config_file.go:126-179 | the reading of the section as comments and entries is a homomorphism, so edits compose |
| PathsMap.DeleteRefines | internal/mediamtx/config_file.go:150-179 | a removal deletes exactly one entry of the parsed, ordered section if and only if the entry is contiguous: the matched line is a key at two spaces, and no content line stands between the line at which the scan stops and the next key |
| PathsMap.SetInserts | internal/mediamtx/config_file.go:126-148 | a set puts exactly one entry, in front of `all_others` or last, into what the removal left, order of the others unchanged |
| PathsMap.DeletePathRefinesMap | internal/mediamtx/config_file.go:59-77 | DeletePath refines removal of the key from the parsed map |
| PathsMap.SetPathRefinesMap | internal/mediamtx/config_file.go:42-57 | SetPath refines the map update, for present and absent names; what the entry says is `SetPathSays` |
| PathsValues.SetPathSays | internal/mediamtx/config_file.go:42-57 | in every editable file in which the block is not glued to other text, an independent reader of the file that SetPath leaves finds under `name` exactly the update: every key with its own field's value, absent exactly when that field is empty or false |
| PathsValues.AnalogThroughFile | internal/stream/service.go:166-193 | an analog source of a known format set into such a file comes back: reading runOnDemand from the parsed file, unquoting and parsing it gives its device, canonical format, resolution and frame rate |
| PathsMap.AbsentDeletes | internal/mediamtx/config_file.go:156-178 | when nothing matches, the parsed section has no entry of that name |
| PathsMap.SetStaysInSection | internal/mediamtx/config_file.go:126-148 | everything before and including the `paths:` line and every later section is unchanged, line by line |
| PathsMap.RemovalStaysInSection | internal/mediamtx/config_file.go:150-179 | the same for a removal |
| PathsComments.RemovalKeepsComments | internal/mediamtx/config_file.go:160-176 | for every file, a deletion keeps every comment but the entry's own managed one, in order, if and only if no comment stands inside the block the scan cuts out |
| PathsComments.SetKeepsComments | internal/mediamtx/config_file.go:126-148 | a set keeps those comments and adds exactly the managed comment, under the same condition, for present and absent names |
| PathsComments.BlockComments | internal/mediamtx/config_file.go:206-228 | a rendered block has exactly one comment, its managed one |
| PathsRename.BlockNamesOnlyItself | internal/mediamtx/config_file.go:206-228 | no line of a rendered block is taken for the key of another path |
| PathsRename.SetKeepsContiguous | internal/mediamtx/config_file.go:42-57 | setting one path keeps every other entry contiguous |
| PathsRename.SetKeepsEditable | internal/mediamtx/config_file.go:42-57 | setting one path keeps the file editable for every other name |
| PathsRename.CompletedEditable | internal/mediamtx/config_file.go:143-145 | the newline the edit adds to an unterminated file changes neither its entries nor that they can be edited |
| PathsNames.RemovalLowersCount | internal/mediamtx/config_file.go:150-179 | a removal that finds its entry leaves fewer lines of that name |
| PathsNames.PresentIsNotRestored | internal/mediamtx/config_file.go:126-179 | setting a name that is present, even twice, and deleting it again never gives the old file |
| PathsExamples.UnterminatedFileBreaksRoundTrip | internal/mediamtx/config_file.go:143-145 | the file `paths:` without a newline: the set destroys the section |
| PathsExamples.SplitBodyIsNotDeleted | internal/mediamtx/config_file.go:164-174 | a blank line inside a body: the deletion leaves the rest behind |
| PathsExamples.CommentIsDeletedWithEntry | internal/mediamtx/config_file.go:164-174 | a comment with one leading space below a contiguous entry is deleted with it |
| PathsExamples.RenameOntoEntry | internal/stream/service.go:117-127 | a rename of a missing path onto the only entry of a file ends with that entry gone |
| PathsExamples.RenamingIsPossible | internal/stream/service.go:113-129 | the conditions of the rename theorem are met by an ordinary file, for every single-line update |
| ConfigStore.ConfigFile.constructor | internal/mediamtx/config_file.go:25 | a file as found, no backup yet |
| ConfigStore.ConfigFile.Write | internal/mediamtx/config_file.go:234-265 | all or nothing, and only after the previous text is in the backup |
| ConfigStore.ConfigFile.SetPath | internal/mediamtx/config_file.go:42-57 | read, edit, back up, replace, or leave the file alone with the right error; what was written says of the path exactly what the update says |
| ConfigStore.ConfigFile.DeletePath | internal/mediamtx/config_file.go:59-77 | the same for a deletion, with not-found as its own outcome |
| ConfigStore.ConfigFile.ApplySource | internal/stream/service.go:113-129 | the contents before, between and after the calls of the file-mode branch are exactly the moments of the rename specification |
| ConfigStore.RenameIsSafe | internal/stream/service.go:113-129 | in a rename to a fresh name no moment has neither name, whichever call fails; it succeeds exactly when neither call is hindered, and then only the key changed and the new entry says what the update says; on failure the old file, with its last line ended, or, only when the compensating delete is hindered too, the old entries and the new one |
| ConfigStore.MissingRenameUndone | internal/stream/service.go:117-127 | when the old name is missing, the compensating delete restores the file byte for byte if and only if the new name was absent and its block was not written behind an unterminated line |
| ConfigStore.MissingRenameHappens | internal/stream/service.go:117-127 | such a rename happens on every file within the size limit in which no line names the old path |
| ConfigStore.RenameOntoExistingLosesIt | internal/stream/service.go:117-127 | what is lost when the new name was there once: the entry that stood under it |
| AnalogCommand.GOPInRange | internal/stream/service.go:181-185 | every accepted frame rate lies below 1000, and the emitted group of pictures in 1..1000 |
| AnalogCommand.FPSIsDecimal | internal/stream/service.go:181 | the rate is the decimal as written: its digits without the point are the rate times a power of ten |
| AnalogCommand.GOPIsRounded | internal/stream/service.go:181-185 | the group of pictures is the rate rounded to the nearest whole number, halves up, and 25 below one half |
| AnalogCommand.GroupWritten | internal/stream/service.go:186 | the printed command splits into words in which -g and -keyint_min are both followed by that number |
| AnalogCommand.UniqueCommandFlagValue | stream_sources.go:240-254 | the value behind a flag that occurs exactly once, else nothing |
| AnalogCommand.HasCommandFlagValue | stream_sources.go:256-263 | whether some flag is directly followed by the value |
| AnalogCommand.ParseAnalogRunOnDemand | stream_sources.go:205-238 | the step-by-step parser computes the field-by-field specification |
| AnalogCommand.QuoteRoundTrip | internal/mediamtx/config_file.go:230-232 | single-quoted scalars (section 7.3.2 of YAML 1.2.2) unquote to what was quoted |
| AnalogCommand.WordsOfSpaced | stream_sources.go:209 | splitting on white space undoes joining words with single spaces |
| AnalogCommand.AnalogRoundTrip | internal/stream/service.go:166-193 | printing, quoting, unquoting, splitting and parsing returns device, canonical format, resolution and frame rate for the known formats and nothing for the others |
| AnalogCommand.KnownFormatRoundTrip | internal/stream/service.go:166-193 | the same for MJPG, MJPEG, YUYV and YUY2 in any case: device, canonical format, resolution and frame rate come back |
| AnalogCommand.AnalogUpdateIsPlain | internal/stream/service.go:186-193 | the update of an analog source meets what the editor asks of its fields |
| IPv4.BinaryIsValue | internal/cameranetwork/network.go:150-153 | the shifts and ors compute the number that the four bytes spell |
| IPv4.UintIsInverse | internal/cameranetwork/network.go:154 | uintIPv4 undoes binaryIPv4 on every 32-bit number |
| IPv4.DottedInjective | internal/cameranetwork/network.go:135-141 | different addresses print differently, so comparing texts compares addresses |
| IPv4.SubnetValues | internal/cameranetwork/network.go:129-134 | the bytewise network and broadcast are the first and last number of the aligned block of 2^(32-p) numbers around the camera |
| AddressPool.SelectAddress | internal/cameranetwork/network.go:129-149 | the highest free of the top 1024 hosts, never wrapping; none only if all are taken; never none while min(2^(32-p)-2, 1024) exceeds the local addresses plus two |
| AddressPool.SomeCandidateFree | internal/cameranetwork/network.go:129-149 | the pigeonhole argument behind that bound |
| AddressPool.FullPool | internal/cameranetwork/network.go:129-149 | a full pool needs that many taken addresses |
| HelperChecks.CandidateInSubnet | internal/cameranetwork/network.go:284-297 | the client's mask arithmetic agrees with the helper's: a candidate is inside the subnet and neither its network nor its broadcast address |
| HelperChecks.SubnetTests | internal/cameranetwork/network.go:288-296 | the helper's three subnet tests hold exactly of the addresses strictly between the first and the last number of the camera's aligned block |
| HelperChecks.ValidateIff | internal/cameranetwork/network.go:279-298 | the helper's checks accept exactly the well-formed requests of 30 to 3600 seconds for a private address strictly inside the camera's block and not the camera's own |
| HelperChecks.ClientRequestCarries | internal/cameranetwork/network.go:87-95 | the client asks to add the chosen address on its device and prefix, for the time asked for or the nearest one allowed |
| HelperChecks.ClientRequestValid | internal/cameranetwork/network.go:279-298 | for every camera, prefix 1..30 and candidate the helper accepts the client's request if and only if interface and MAC are acceptable and the subnet lies in a private block of section 3 of RFC 1918, or is the /11 that ends with 172.16/12 |
| HelperChecks.ShortMaskIsRejected | internal/cameranetwork/network.go:279-298 | a private camera with a /8 mask outside 10/8: the helper rejects every candidate |
| LeaseProtocol.PurgeExpired | internal/cameranetwork/network.go:233-237 | the purge loop keeps exactly the unexpired leases |
| LeaseProtocol.NextInv | internal/cameranetwork/network.go:188-277 | every step of client, helper, clock or crash keeps the protocol's invariant |
| LeaseProtocol.RunInv | internal/cameranetwork/network.go:188-277 | so does every run |
| LeaseProtocol.ReportInOrder | internal/cameranetwork/network.go:259-277 | a reported lease was validated, probed, added and persisted before, in that order |
| LeaseProtocol.LeaseSafety | internal/cameranetwork/network.go:88-126 | in every interleaving with crashes a lease returned by Ensure is exactly what that call asked for, its validation, probe, add, persist and report are recorded in that order, and every unexpired lease has a kernel address that lives at least as long; what the records mean is `LeasesAreMade` |
| LeaseHistory.LeasesAreMade | internal/cameranetwork/network.go:229-277 | in every run from the start each lease returned or persisted stems from one unbroken helper run for that call's request: a validate step whose checks hold, then a load, then a probe whose command ran and found the address free, then an add; it lasts the requested seconds from the load |
| LeaseHistory.ConflictEndsRun | internal/cameranetwork/network.go:267-269 | a probe that found the address in use ends the helper run with no add, nothing persisted and a failure status if its write succeeds |
| LeaseHistory.IdleAddsNothing | internal/cameranetwork/network.go:203-223 | from there no run changes kernel or lease file before the helper is started again |
| LeaseHistory.RefusalIsReported | internal/cameranetwork/network.go:229-272 | validate, load, probe and add go on exactly under the source's conditions; otherwise the run ends and the failure is reported to that call |
| LeaseHistory.RepeatIsAnswered | internal/cameranetwork/network.go:238-243 | a request whose lease is still held is answered with that lease, without a second add or a longer life, and exactly the expired leases leave the file |
| LeaseHistory.LeaseStays | internal/cameranetwork/network.go:231-237 | an unexpired lease stays in the file unchanged over every run whose loads could read the file |
| LeaseProtocol.RemovalIsUnreachable | internal/cameranetwork/network.go:238-257 | the branch that would remove an address is never reached |
| LeaseProtocol.ReusedIdAnswersWrongly | internal/cameranetwork/network.go:88-126 | from the start, once a call was served, a second call that reuses its id for another address is answered with the first call's lease |
| PreviewManager.ApplyInv | internal/streampreview/manager.go:61-174 | every step against a failing or reply-losing MediaMTX keeps the invariant |
| PreviewManager.RunInv | internal/streampreview/manager.go:61-174 | in every run each preview path this manager created is tracked, owed by Close, or had a cleanup delete that failed; one session per owner; each session has an expiry ahead |
| PreviewManager.NothingExcused | internal/streampreview/manager.go:88-98 | no path is excused unless a cleanup delete reported an error |
| PreviewManager.ClosedLeavesNothing | internal/streampreview/manager.go:137-154 | after a finished Close without failed cleanup deletes MediaMTX holds none of the manager's paths |
| PreviewManager.PathOfInjective | internal/streampreview/manager.go:66-72 | different tokens have different paths |
| PreviewManager.OwnerReplaced | internal/streampreview/manager.go:79-87 | a replacement goes through exactly when every delete of the owner's sessions succeeds, and then leaves exactly the other owners' sessions |
| PreviewManager.ReplaceOnlyRemoves | internal/streampreview/manager.go:79-87 | a replacement tracks no token that was not tracked before |
| PreviewManager.StopIsFinal | internal/streampreview/manager.go:106-121 | after an accepted stop a session stays untracked, and further stops of it are refused, in every run without a start of its token |
| PreviewManager.Manager.constructor | internal/streampreview/manager.go:47-52 | a new manager, whatever stale paths MediaMTX has |
| PreviewManager.Manager.StartSource | internal/streampreview/manager.go:74-104 | succeeds exactly when the manager is open, the owner's sessions are deleted and the path is created; then the owner has exactly the new session and all others theirs |
| PreviewManager.Manager.ReplaceSessions | internal/streampreview/manager.go:79-87 | the replacement loop stops at the first failed delete and forgets only what was deleted |
| PreviewManager.Manager.Create | internal/streampreview/manager.go:88-103 | creation with its session and expiry, or cleanup after a failed creation that leaves the sessions as they were |
| PreviewManager.Manager.CleanUp | internal/streampreview/manager.go:89-98 | after a failed creation the path is deleted, or excused when that delete fails |
| PreviewManager.Manager.Stop | internal/streampreview/manager.go:106-121 | succeeds exactly for the owner of a tracked session whose path is deleted; then exactly that session and its expiry are gone and the path with them; otherwise no session changes |
| PreviewManager.Manager.Expire | internal/streampreview/manager.go:156-174 | an expired session is forgotten together with its path, or kept and armed again when the delete fails |
| PreviewManager.Manager.Close | internal/streampreview/manager.go:137-154 | nothing stays tracked and every owed path is deleted once |
| PreviewManager.Manager.DeletePending | internal/streampreview/manager.go:147-153 | the delete loop removes what was applied and excuses what failed |
| ProxyManager.ApplyInv | internal/cameraproxy/manager.go:136-269 | every step keeps the invariant |
| ProxyManager.RunInv | internal/cameraproxy/manager.go:136-269 | in any interleaving no session is timed out before its latest promise, every session has a callback for it, each camera has one session, and every server that left the map is closing or stopped |
| ProxyManager.ManagerSafety | internal/cameraproxy/manager.go:136-269 | the same, spelled out for every run of a new manager: timeouts come no earlier than the last promise, untracked servers do not serve, tracked ones have their callback, one per camera |
| ProxyManager.StaleCallbackIsHarmless | internal/cameraproxy/manager.go:230-242 | in every run a firing callback changes sessions or servers if and only if it is due, its session is the camera's current one and its expiry the last promise |
| ProxyManager.RenewalOutlivesOldCallbacks | internal/cameraproxy/manager.go:141-148 | a renewal moves the promise and makes every older callback stale |
| ProxyManager.ClosedStaysClosed | internal/cameraproxy/manager.go:252-269 | after Close nothing is tracked or started again |
| ProxyManager.CloseIsFinal | internal/cameraproxy/manager.go:252-269 | after a Close in any run, whatever follows: no session, no server that serves, no new session |
| ProxyManager.Manager.constructor | internal/cameraproxy/manager.go:77-94 | a new manager |
| ProxyManager.Manager.RenewSession | internal/cameraproxy/manager.go:141-148 | the renewal branch |
| ProxyManager.Manager.DropSession | internal/cameraproxy/manager.go:149-151 | the replacement branch |
| ProxyManager.Manager.CreateSession | internal/cameraproxy/manager.go:154-188 | the creation branch |
| ProxyManager.Manager.Start | internal/cameraproxy/manager.go:136-188 | renews on the same target, else replaces or creates; success exactly when open and listening or renewing; the returned expiry is the one stored, and a replaced session's server is closing |
| ProxyManager.Manager.StopExpired | internal/cameraproxy/manager.go:230-242 | only the session and expiry a callback was armed for is stopped: out of the map, its server closing |
| ProxyManager.Manager.Remove | internal/cameraproxy/manager.go:244-250 | a finished serve loop removes exactly its own session, if it is still the camera's |
| ProxyManager.Manager.Close | internal/cameraproxy/manager.go:252-269 | closed for good, nothing in the map, and exactly the servers that were in it are closing |
| UpdateScript.Deployment.Backup | deploy/update-dronservice.sh:172-187 | every managed destination is backed up with its content or its absence |
| UpdateScript.Deployment.Install | deploy/update-dronservice.sh:189-195 | installs write managed destinations only, also when one fails half-way |
| UpdateScript.Deployment.Rollback | deploy/update-dronservice.sh:35-70 | restores every managed destination exactly, and the links if they were switched |
| UpdateScript.Deployment.Update | deploy/update-dronservice.sh:168-229 | a failure at any step leaves every file as before the run, content and absence; success installs all and leaves both links at the new release; after a failure the links are those of Links |
| UpdateScript.LastInstalled | deploy/update-dronservice.sh:189-195 | after the installs a destination holds what was installed there last |
| UpdateScript.NotInstalled | deploy/update-dronservice.sh:189-195 | and every other path what it held before |
| UpdateScript.LinksRestored | deploy/update-dronservice.sh:203-210 | for every state of the links, both are as before a failure if and only if it was not at lines 208-209 and, after the switch, the binary was linked through `current` |
| UpdateScript.CurrentRestored | deploy/update-dronservice.sh:58-68 | `current` alone is as before if and only if it was not at those lines and, after the switch, the binary led to the release that `current` named |
| UpdateScript.UncheckedReleaseRuns | deploy/update-dronservice.sh:207-210 | a failure at those lines leaves the binary leading to the release that was never checked |
| UpdateScript.EffectiveRestored | deploy/update-dronservice.sh:58-68 | a failure elsewhere leaves the binary leading to the release it led to |
| UpdateScript.ScriptIsDistinct | deploy/update-dronservice.sh:172-184 | the script's own list of managed files meets the theorem's condition |
| VersionOrder.ValidIsMatching | internal/buildinfo/buildinfo.go:14 | the check by splitting is the pattern's language |
| VersionOrder.PartsDetermineVersion | internal/buildinfo/buildinfo.go:14 | a valid version is determined by its three numbers |
| VersionOrder.SpelledParts | internal/updater/client.go:292-305 | every triple of numbers is spelled by a valid version with those parts |
| VersionOrder.NewerVersion | internal/updater/client.go:278-290 | the comparison loop computes the order |
| VersionOrder.NewerOfNumbers | internal/updater/client.go:278-290 | of any two versions spelled with numbers that fit an int, the first is newer exactly when its major, then minor, then patch number is the higher one |
| VersionOrder.NewerIsAbove | internal/updater/client.go:278-290 | one version is newer than another exactly when both are valid, their parts fit an int, and the parts are above in that order |
| VersionOrder.NewerIsTotal | internal/updater/client.go:278-290 | two different valid versions are comparable, one way only, if and only if their parts fit an int (item 11 of Semantic Versioning 2.0.0) |
| VersionOrder.NewerIsTransitive | internal/updater/client.go:278-290 | the order is transitive |
| VersionOrder.Client.constructor | internal/updater/client.go:86-99 | a client without a pending request |
| VersionOrder.Client.Request | internal/updater/client.go:134-172 | publishes only when the latest version is valid and its numbers are above the running one's, component by component, and never replaces a pending request |
| History.UpdateMinuteBucket | internal/starlink/history.go:164-185 | the in-place bucket update computes its specification |
| History.TrimMinuteHistory | internal/starlink/history.go:187-196 | drops the leading buckets older than seven days |
| History.MinutesAreExact | internal/starlink/history.go:164-196 | over any run the buckets are strictly increasing, each holds the exact count, mean and reachability of its minute, and every minute of the last seven days that has samples has its bucket |
| History.SlotMonotonic | internal/starlink/history.go:164-169 | truncation gives the multiple of the unit at or below a time, and keeps order |
| History.RecentPointsAre | internal/starlink/history.go:223-245 | the points of a range are exactly the buckets in its window |
| History.AggregateHourly | internal/starlink/history.go:247-285 | for any points one value per maximal run of one hour, each the mean and the reachability of its run; for points in order exactly one value per hour |
| History.SortedRuns | internal/starlink/history.go:247-285 | runs of points that are in order are whole hours |
| History.HourlyBetween | internal/starlink/history.go:247-285 | an hourly value lies between any bounds on the samples recorded in those of its minutes that are in the window |
| History.DayIsExact | internal/starlink/history.go:203-204 | the 24-hour query has exactly one point, in order, for each minute of the window with samples: their exact mean, reachable if and only if one of them is |
| History.WeekIsComplete | internal/starlink/history.go:205-206 | the seven-day query has exactly one value, in order, for each hour with samples in the window, reachable if and only if one of them is |
| History.WeekHistory | internal/starlink/history.go:205-206 | both for the seven-day query of any run |
| RawHistory.TrimRawHistory | internal/starlink/history.go:150-162 | the trimming loop computes its specification |
| RawHistory.FilterRawSince | internal/starlink/history.go:213-221 | the points not before the start of the window, in order |
| RawHistory.StoredIs | internal/starlink/history.go:124-162 | what is stored is the last 960 of the samples appended in the last two hours, after any run |
| RawHistory.WindowBound | internal/starlink/service.go:126-135 | behind the eight-second gate two hours hold at most 902 samples plus one per loss of the cache |
| RawHistory.CapDropsNothingIff | internal/starlink/history.go:159-161 | the cap drops nothing if and only if at most 960 samples were appended in the last two hours |
| RawHistory.CapLosesNothing | internal/starlink/history.go:159-161 | with at most 58 losses of the cache in any two hours it never drops a point |
| RawHistory.QueryIsComplete | internal/starlink/history.go:198-221 | so a query over at most two hours returns every sample appended in its window |
| RawHistory.DroppedIff | internal/starlink/history.go:136-148 | a recorded sample is not appended exactly when the last appended one is less than four seconds older, agrees in reachability, and differs by less than 0.01, 0.01 and 0.1 in the metrics |
| RawHistory.SpacedAreAppended | internal/starlink/history.go:136-141 | when recorded samples are at least four seconds apart, every one of them is appended |
| RawHistory.SpacedQueryIsComplete | internal/starlink/history.go:198-221 | queries over at most two hours of such runs, with few cache losses, return every recorded sample of their window |
| RawHistory.Service.constructor | internal/starlink/service.go:69-91 | a service without history |
| RawHistory.Service.Status | internal/starlink/service.go:126-190 | answers from the cache for eight seconds, otherwise records one sample; the files follow unless it repeats the last point |
| RawHistory.Service.RecordHistory | internal/starlink/history.go:124-148 | a repeat only refines its minute; any other point is appended, trimmed and saved |
| RawHistory.Service.Reboot | internal/starlink/service.go:92-106 | an accepted reboot forgets the cache and nothing else |
| RawHistory.Service.Restart | internal/starlink/history.go:64-87 | a restart keeps the raw history; if no sample was lost before, the minute buckets are exact for every recorded sample if and only if the last recordHistory call appended its point |
| RawHistory.PartIsNotExact | internal/starlink/history.go:164-196 | the buckets of a proper part of the samples are never exact for all of them |
| RawHistory.RestartLosesRepeat | internal/starlink/history.go:136-141 | a check, a reboot, the same answer within four seconds and a restart: the second sample is gone |
| RawHistory.Service.HistoryFor | internal/starlink/history.go:198-211 | 10m, and any unknown range as 1h, with few cache losses: the samples appended in the window, and all recorded ones when they are four seconds apart; 24h: exact minutes; 7d: hours of the samples in the window, within their bounds |
| CameraStore.PreparedFacts | internal/ipcamera/service.go:605-636 | which id, name, use flag and password an accepted request is stored with |
| CameraRecords.AcceptedIff | internal/ipcamera/service.go:605-636 | a save is accepted exactly when it has a name, an address, a known manufacturer and, with both paths given, RTSP URLs whose credentials agree with the request and each other |
| CameraRecords.SavedStores | internal/ipcamera/service.go:552-583 | an accepted, written save changes no other record and stores the trimmed fields; both paths lead to the camera's own address without credentials, with the request's or the manufacturer's port and rest; masks and DHCP stay where the request is silent |
| CameraRecords.SavedCredentials | internal/ipcamera/service.go:871-918 | the stored credentials are those of the paths, else the request's, and for a blank password the stored one |
| CameraStore.StepRefines | internal/ipcamera/service.go:153-603 | each lock section acts on names, credentials and use flags as its one-line specification says |
| CameraStore.RunRefines | internal/ipcamera/service.go:296-540 | over every interleaving CheckStatus and RefreshVideoStreams change no name, credential or use flag: those are what Save, Delete and Discover made of them |
| CameraStore.StatusTouchesAnswered | internal/ipcamera/service.go:356-392 | a status check marks exactly the cameras that answered and still exist and leaves every other record unchanged |
| CameraRecords.MergedDescribes | internal/ipcamera/service.go:166-186 | after a discovery every camera that answered is described by its last answer, path hosts included, and no other record changed |
| CameraRecords.DiscoveryStores | internal/ipcamera/service.go:166-186 | such a camera is stored and online, and what a single answer left blank is as it was, completed initialization included |
| CameraRecords.StatusStores | internal/ipcamera/service.go:365-374 | after a status check an answering Dahua camera that still exists is online and described by its last answer |
| CameraStore.NeverResurrected | internal/ipcamera/service.go:370-384 | a camera that is gone comes back only by Save or Discover |
| CameraStore.RunInv | internal/ipcamera/service.go:166-186 | online ids are camera ids, records that carried their key still do, and the file is the map unless a write failed after its rename |
| CameraStore.SaveKeepsPasswordsIff | internal/ipcamera/service.go:552-583 | a save keeps every password that was set if and only if it is refused, not written, or not a blank-id, blank-password save over a camera with a password |
| CameraStore.BlankSaveClearsPassword | internal/ipcamera/service.go:556 | a camera added by address loses its password when saved again by address with a blank password |
| CameraStore.UpdateKeepsPasswords | internal/ipcamera/service.go:638-682 | requests that pass SaveWithCameraUpdate clear no password, whatever ran in between |
| CameraStore.PasswordStays | internal/ipcamera/service.go:552-603 | a set password stays set until Delete, over every run without such a blank save |
| CameraStore.ApplicationKeepsPasswords | internal/ipcamera/service.go:638-682 | when every save goes through SaveWithCameraUpdate, as in the application, a set password stays set until Delete over every run |
| CameraStore.Service.constructor | internal/ipcamera/service.go:130-151 | a store as loaded from its file |
| CameraStore.Service.Commit | internal/ipcamera/service.go:972-1013 | the map is swapped only after a successful write |
| CameraStore.Service.Save | internal/ipcamera/service.go:552-583 | accepted and written exactly when it answers ok; the map, the file and the online marks are otherwise as they were |
| CameraStore.Service.Delete | internal/ipcamera/service.go:585-603 | the camera and its online mark are gone, or nothing happened |
| CameraStore.Service.Discover | internal/ipcamera/service.go:166-186 | the discovery step, with its loop over the answers: ok exactly when nothing was found or the write succeeded, and then exactly the found ids are online |
| CameraStore.Service.CheckStatus | internal/ipcamera/service.go:356-392 | the second section of CheckStatus: exactly the answering cameras that are still there are online, user data unchanged |
| CameraStore.RefreshDahua | internal/ipcamera/service.go:365-374 | the loop over answering Dahua cameras computes the refreshed map and the ids that count |
| CameraStore.TouchUNV | internal/ipcamera/service.go:375-384 | the loop over answering UNV cameras stamps those that are still there |
| CameraStore.Service.ReadForStreams | internal/ipcamera/service.go:450-467 | which cameras RefreshVideoStreams goes on with |
| CameraStore.Service.StoreStreams | internal/ipcamera/service.go:507-540 | the second section of RefreshVideoStreams, on the record as it is then: the streams of that camera and no other record |
| Discovery.SortUnique | internal/ipcamera/discovery.go:247-258 | the de-duplicating loop computes its specification |
| Discovery.UniqueIs | internal/ipcamera/discovery.go:247-258 | the result is the sorted set of the non-empty values |
| Discovery.StrictUnique | internal/ipcamera/discovery.go:247-258 | a sorted set has one spelling |
| Discovery.MergeDevices | internal/ipcamera/discovery.go:122-142 | the nested loops compute the merge's specification |
| Discovery.MergedSummarizes | internal/ipcamera/discovery.go:122-142 | when the answers of each vendor all have a MAC, or all lack one and have a serial number, there is exactly one record per device, with the sorted union of protocols and the highest confidence, sorted by address |
| Discovery.MACsIdentify | internal/ipcamera/discovery.go:144-151 | that condition holds when every device has a MAC |
| Discovery.OrderIndependent | internal/ipcamera/discovery.go:105-119 | the same answers in any order, even repeated, give the same devices, protocols and confidence ranks |
| Discovery.MergedCarries | internal/ipcamera/discovery.go:160-220 | a record's serial number, model, address, source and other texts are those of the first answer of that device that has one, and absent only if no answer has one |
| Discovery.MergedConfidence | internal/ipcamera/discovery.go:160-164 | a record is rated high exactly when some answer of its device is, medium when none is high and some is medium, low when only low ones are left |
| Discovery.MergedFolds | internal/ipcamera/discovery.go:222-235 | a record's initialization status is the fold of what its device's answers said, in order |
| Discovery.StatusFixedIff | internal/ipcamera/discovery.go:222-235 | that status is the same for every order of arrival if and only if the answers do not disagree, or exactly one says Required and exactly one Completed |
| Discovery.StatusDependsOnOrder | internal/ipcamera/discovery.go:222-235 | three answers of one camera, merged in two orders, give Required and Unknown |
| Discovery.PairMerges | internal/ipcamera/discovery.go:144-158 | two answers of one vendor become one record exactly when the first that both give of MAC, serial number and (at one address) model is equal, or, where they share none, their answering addresses are |
| Discovery.MissingMACsDependOnOrder | internal/ipcamera/discovery.go:144-158 | for any serial number and source, three answers without a MAC of which only some have the serial number: one record or two, depending on the order |
| Separation.HexRoundTrip | internal/streampreview/manager.go:62-66 | hex encoding can be undone, so different tokens are spelled differently |
| Separation.TokenPathIsInternal | internal/streampreview/manager.go:66-72 | every token's path has the internal shape and is an acceptable stream name |
| Separation.InternalIsToken | internal/stream/service.go:26-32 | the internal shape holds of the token paths and of nothing else |
| Separation.TokenPathsDiffer | internal/streampreview/manager.go:66-72 | different tokens have different paths |
| Separation.ApplyRemoteLocal | internal/stream/service.go:130-146 | the API branch of ApplySource touches only names of its own kind |
| Separation.PreviewStep | internal/stream/service.go:113 | a preview call changes neither the file nor a public path |
| Separation.PublicStep | streams_http.go:19-21 | a public call changes no preview path |
| Separation.NonInterference | internal/stream/service.go:108-226 | after any interleaving the file and public paths are what the public calls alone make of them, and the preview paths what the preview calls alone make of them |
| Separation.OneKindOnly | internal/stream/service.go:108-226 | a run of previews leaves the file as it was; a run of public calls leaves every preview path as it was |

## Left out

- HTTP handlers, pages, templates and command-line start-up: input, output and user interface.
- MediaMTX's HTTP client, camera protocols (Dahua CGI, UNV LAPI, DHIP, ARP), ZeroTier, release download, V4L2: their answers are arguments of steps.
- JSON, YAML, `net/url`, regular expressions and file-system calls: patterns are predicates, URLs and files are values; `validateConfigText` depends on the YAML parser and is not part of this model.
- Quoted or flow-style YAML keys, and entries indented by anything but two spaces: the editor does not recognize them as entries, and neither does the parse used here.
- Invalid UTF-8: strings are sequences of code points. The length limit of the command parser counts code points; the printed commands are ASCII, where both counts agree.
- Rounding of float64: metrics are reals; a frame rate is read without rounding.
- IPv6 and local addresses without an IPv4 form: the allocator sees IPv4 addresses only.
- The lease protocol is a state machine over values: its two processes share files, not an object; files are replaced atomically.
- Kernel addresses go only by expiry: a machine reboot, an interface that goes down or a manual removal, which keep the lease file and lose the address, are not modelled.
- The codes and texts of failure statuses: a failure names its request only.
- Request ids are fresh: they are nanosecond timestamps, and `ReusedIdAnswersWrongly` shows what a repeated one would do.
- A remote call takes effect, or not, before it returns; requests that arrive after a later delete are not modelled.
- MediaMTX reloading its configuration file, and what that does to paths added by its API.
- Lock directory, signals and failures of rollback's own commands in the update script; a single run is assumed.
- Files the update script creates only when absent (`camera-network.conf`, `mediamtx.yml`), the settings migration, download and checksum steps, and the helper's systemd units beyond their files.
- Caching of the latest release and the status texts of the update client.
- Starlink status fields, alerts and events other than what history records; unreadable or unwritable history files.
- sort.Slice is not stable; `Discovery.Merged` keeps ties in order of arrival. The MAC of a discovered device is taken as normalized.
- Camera fields that are only copied (vendor, ports, source address, interface, device class, the literal `<nil>` clean-up of masks and gateways).
- The network reads of CheckStatus and RefreshVideoStreams: their answers are arbitrary arguments of the second section, which covers every snapshot of the first.
- Updates whose timeouts are white space only: the service builds none; the rename theorems exclude them.
- decorateStreamConfigs and the source catalogue: labels for the user interface.
- The MAVLink service: it rests on message types of another library.
