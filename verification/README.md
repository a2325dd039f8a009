# Key Session, modelled and proved in Dafny

Key Session is a per-user daemon that hands out leases on secrets. A human approves each lease; a
consumer, known by a random capability, may then run programs with the secret in their environment or
have its SSH key sign authentication requests, until the lease expires or is revoked. This project
models the parts of it that are hard to get right and proves what they promise.

**The daemon** (`Daemon*.dfy`, `LazyExpiry.dfy`) is modelled twice over one specification.
`DaemonSections` says what each critical section does to the guarded state: consumers, their leases,
management sessions, revision and journal. Loops over Go maps, whose order is not fixed, are relations:
some plan of endings, in some order, that ends exactly the leases due. `DaemonService.Service` is the
class that does it in place, on secret buffers that are real arrays, and every method is verified
against those relations, with the bytes of every buffer accounted for. `DaemonMachine` is the same
daemon as an interleaved step machine: each critical section under `mu` is one step, `profileMu` is a
lock with an owner that is held across the human approval, and between two steps of a call any other
call may step. The clock never goes back, tokens and identifiers are fresh, the keychain may refuse,
and `Save` may fail with or without having taken effect. `DaemonInvariant` and `DaemonPreservation`
hold the invariant and its proof, `DaemonTheorems`, `DaemonCapabilities`, `DaemonApprovals`,
`DaemonIsolation`, `DaemonManagement`, `DaemonEffects` and `DaemonProgress` what follows for whole runs, and
`DaemonJournal` and `DaemonBooks` the bookkeeping. `DaemonMeanings` says what each section answers and does in
terms of the leases, consumers and sessions that are current, without naming the relations or the sweep.
`LazyExpiry` shows that sweeping expired leases late, early or not at all between calls makes no
difference to any answer, and where the two early clock readings of a grant are the exception.

**The SSH agent** (`SshAgent.dfy`, `SshAgreement.dfy`, `SshWire.dfy`) lists the keys of live leases and
signs for them, each by a loop of its own over the daemon's state; the two are shown to agree in every
reachable world. The recogniser of authentication requests is shown to be exact for the wire format of
section 7 of RFC 4252 with the data types of section 5 of RFC 4251.

**Version ordering** (`Versions.dfy`, `VersionParsing.dfy`, `VersionOrder.dfy`) for the update check is a
total order, reads back what is written, and agrees with section 11 of Semantic Versioning 2.0.0 on
exactly the versions described there.

**Running a command** (`Environment.dfy`, `Execution.dfy`, `Redaction.dfy`): what the child sees in its
environment, what is kept of its output, and when redaction leaves no secret in it.

**Agent connections** (`SkillTree.dfy`, `SkillReadings.dfy`, `SkillInstall.dfy`, `AgentConfig.dfy`,
`AgentRepair.dfy`): the fingerprint and installation of the bundled skill, and the transaction that repairs an
agent's MCP entry while other programs may write the same file.

Where the code and what it or its documentation says differ, the model follows the code:

- A value is not always redacted. `AlwaysGoneExactly` gives the exact condition whatever else is in the
  list, that it can be laid over the marker nowhere, and `GoneAloneExactly` the one for a value redacted
  alone. The two fixed messages of a run are not redacted at all.
- The security notes say a rollback leaves a concurrent configuration change untouched
  (`docs/SECURITY-MODEL.md:65`). `FirstLostExactly`, `EarlyLostExactly`, `LateLostExactly` and
  `LastLostExactly` say for each moment at which another program may write when its change is lost, an
  absent file against an empty one included; `ChangesCanBeLost` and `AnEmptyFileCanBeLost` name such
  changes.
- Precedence follows the standard except for a hyphen followed by digits only and for numbers beyond 64
  bits, which are read as numbers, or not, the other way round (`WellReadExactly`).
- A version may end in a hyphen with no prerelease after it, which the standard does not allow
  (`DanglingHyphen`); `AcceptedExactly` says which texts are versions.
- Lease requests of some 585 years wrap around and are approved as about a minute (`WrapsToAMinute`), and
  2^55 seconds as the profile's default (`WrapsToTheDefault`); `ApprovedAsAsked` says exactly which.
- Two skills with payloads that hold NUL bytes can have one fingerprint (`PinnedExactly`), and empty
  directories leave no trace in it.
- A grant reads the clock before it takes the lock; a sweep that gets in between can change its answer
  (`LookUpReadsEarlyExactly`, `GrantReadsEarlyExactly`).
- `StoreProfile` ends no lease, so freshness is promised from `UpdateProfile` and `deleteProfile` only.
- When the add command fails, the message that a concurrent change was left untouched is also given when
  the command itself had changed the file, whose leftovers then stay (`OriginalOrTheirsExactly`).
- A lease already expired but not yet swept is journalled as revoked when its profile changes.

## Model

| member | source | states |
|---|---|---|
| DaemonTheorems.LiveLeasesAreConfigured | internal/daemon/service.go:186-267 | under every interleaving of grants, updates, deletions and failing saves, a live lease's profile is configured with the lease's kind, and an SSH lease's secret yields exactly the configured public key |
| DaemonTheorems.SessionsAreConfigured | internal/daemon/service.go:490-501 | every open management session is of a configured profile that is not an SSH profile, also during its deletion |
| DaemonTheorems.LeasesAreWhereTheyBelong | internal/daemon/service.go:234-261 | a consumer has at most one lease for a profile; leases carry the identifier they are stored under and their consumer's; consumer identifiers are unique |
| DaemonTheorems.LeasesAreShort | internal/daemon/service.go:222-246 | a lease lasts at most a day and never beyond its consumer, and a consumer at most a week |
| DaemonApprovals.EveryLeaseWasApproved | internal/daemon/service.go:204-233 | each live lease goes back to a keychain read that the human approved, into the lease's own secret, of the same profile for the same consumer and reason; the secret is still byte for byte what was read, and from the time of its stamp the lease lasts just as long as the sheet showed, or as its consumer if that ends before |
| DaemonApprovals.EveryLeaseWasAskedFor | internal/daemon/service.go:133-233 | and further back: the sheet was made when the call took the profile lock, of the profile as configured then and of the duration, profile and reason somebody had asked for, for a new consumer or presenting the token of one that had not expired |
| DaemonApprovals.LeasesHaveTheirOwnReads | internal/daemon/service.go:212-262 | one approval is for one lease: different leases, live at any two moments of a run, go back to different reads |
| DaemonApprovals.LeasesAreFresh | internal/daemon/service.go:438-506 | once an update commits or a deletion clears a profile, every live lease of it was read from the keychain after that step, under an approval of that profile; no grant waiting for approval, or past its read, installs the replaced secret |
| DaemonTheorems.SecretsWereHeldSince | internal/daemon/service.go:459-473 | in values: what such a lease holds, the keychain has held since |
| DaemonTheorems.SinceIsHeld | internal/daemon/service.go:459-473 | what the machine remembers of a profile's secrets since its last renewal is what the keychain really held in that part of the run |
| DaemonTheorems.EverySecretIsOwnedOrZero | internal/daemon/service.go:212-260 | every secret buffer has exactly one owner, a lease, a session or a call in flight, or is all zero |
| DaemonTheorems.StepsOnlyZero | internal/daemon/service.go:635-692 | no step writes anything but zeros into a secret buffer, and then into all of it |
| DaemonTheorems.ClosingZeroes | internal/daemon/service.go:86-91 | closing zeroes every buffer a lease or session owns at that moment |
| DaemonEffects.ChildrenHaveLeases | internal/daemon/service.go:338-369 | what a child is given is byte for byte the secret of a lease that was current, and no SSH lease, when its own call presented the token and named it |
| DaemonEffects.ChildrenHaveWhatWasApproved | internal/daemon/service.go:212-369 | so no secret reaches a child without a human, and no SSH key ever does: it is what the keychain held for a profile that is no SSH profile when its lease was approved |
| DaemonEffects.GrantsInstallExactly | internal/daemon/service.go:234-267 | a grant that has come to its last section installs its lease, with the very bytes read, exactly when its consumer is new or has not expired meanwhile; otherwise those bytes are zero |
| DaemonEffects.RevokedIsGone | internal/daemon/service.go:289-310 | after a revocation, whatever its answer, the lease or the consumer it names is not there, and each secret that was to go is zero |
| DaemonEffects.AdminRevokedIsGone | internal/daemon/service.go:314-336 | the same of the consumer the app names |
| DaemonEffects.LeasesRetireOnce | internal/daemon/service.go:222-309 | a lease that has gone, revoked, expired or replaced, is never live again under its consumer |
| DaemonEffects.WritesAreWhole | internal/daemon/service.go:373-474 | storing, updating or generating a profile is one whole change however it was interleaved: when it ends, configuration and keychain are what it found when it took the lock with just its profile and secret put in, both of which had passed the checks of the operation, and that is journalled last |
| DaemonEffects.DeletionsAreWhole | internal/daemon/service.go:480-510 | so is a deletion, which leaves no lease and no session of the profile either |
| DaemonCapabilities.ChangedMeansLetGo | internal/daemon/service.go:635-692 | bytes change only in the step in which the buffer's own owner lets it go |
| DaemonCapabilities.OwnedBytesStand | internal/daemon/service.go:618-692 | clearing one owner's secret never touches a buffer that keeps its owner |
| DaemonTheorems.EventsAreConserved | internal/daemon/service.go:618-675 | before closing, granted less revoked and expired events are the live leases, and consumers started less ended the live consumers |
| DaemonTheorems.JournalIsTheNewest | internal/daemon/service.go:694-706 | event identifiers are pairwise distinct, and after any event the journal is exactly the newest 200 of what was loaded and all that happened |
| DaemonTheorems.RevisionIsAVersion | internal/daemon/service.go:93-131 | two looks of one run with the same revision see the same consumers, leases and journal |
| DaemonTheorems.RevisionRises | internal/daemon/service.go:635-706 | the revision never falls, the history only grows, and both stand still together |
| DaemonTheorems.SweepsNeverRevoke | internal/daemon/service.go:618-633 | a sweep ends leases as expired only, because no lease outlives its consumer |
| DaemonJournal.EndAllKeeps | internal/daemon/service.go:645-675 | every clearing loop, in any order, keeps the event counts and the journal in step with what is live |
| DaemonPreservation.StepKeeps | internal/daemon/service.go:133-535 | the invariant behind these results is kept by every step of every operation |
| DaemonPreservation.RunKeeps | internal/daemon/service.go:52-64 | hence it holds in every reachable world |
| DaemonPreservation.InstallGrantKeeps | internal/daemon/service.go:236-267 | the last section of a grant keeps it although anything may have happened during the approval |
| DaemonPreservation.FinishKeeps | internal/daemon/service.go:469-473 | committing keeps the invariant; after an update no lease of the profile is left; and no call that holds the profile lock is in flight, so no grant is past its keychain read |
| DaemonPreservation.ClearDeleteKeeps | internal/daemon/service.go:493-501 | clearing a deleted profile's leases and sessions keeps it before the configuration is saved |
| DaemonCapabilities.TokensRetireOnce | internal/daemon/service.go:512-535 | a management token whose session has gone never opens one again |
| DaemonCapabilities.UpdatesAreAuthorised | internal/daemon/service.go:438-464 | an update that reaches the keychain used up an unexpired session of that same profile earlier in the run |
| DaemonManagement.EverySessionWasApproved | internal/daemon/service.go:407-436 | each open session was opened under its token by a call that had read the very secret it holds, of its profile, under an approval, and runs for five minutes at most |
| DaemonManagement.UpdatesWereApproved | internal/daemon/service.go:407-464 | an update that reaches the keychain goes back to an approval of that same profile, through a session not yet five minutes old |
| DaemonManagement.NoTokenServesTwice | internal/daemon/service.go:524-535 | no token authorises two updates |
| DaemonCapabilities.OnlyItsOwnCall | internal/daemon/service.go:133-506 | a step moves no call in flight but its own |
| DaemonProgress.NothingIsStuck | internal/daemon/service.go:186-265 | no deadlock: in every reachable world each call can go on, unless it has met an error of its own and returns; a grant that waits for the profile lock waits for another call of which that is true |
| DaemonProgress.OwnStepsEnd | internal/daemon/service.go:133-506 | each step of a call brings it nearer its return |
| DaemonProgress.SweepPlanExists | internal/daemon/service.go:618-633 | from any state a sweep can be carried out, so the relations describe it and do not rule it out |
| DaemonProgress.InstallExists | internal/daemon/service.go:236-265 | and so can the last section of any grant that got that far |
| LazyExpiry.LazyIsEager | internal/daemon/server.go:107-115 | sweeps at any past instants, inserted between requests whose clock readings are in order with them, change no answer, the consumer and leases a grant answers with included |
| LazyExpiry.LookUpReadsEarlyExactly | internal/daemon/service.go:140-183 | when a sweep between a grant's first clock reading and its taking the lock changes what it looks up: the consumer expires in between |
| LazyExpiry.GrantReadsEarlyExactly | internal/daemon/service.go:224-267 | when one between its last reading and its taking the lock changes what it answers: the consumer expires in between, or a lease of another profile that it would show does |
| LazyExpiry.GrantCanTell | internal/daemon/service.go:224-267 | a concrete consumer whose lease is shown or not |
| LazyExpiry.OneCallCannotTell | internal/daemon/service.go:277-371 | states that agree once swept give one answer to any request and agree again after it |
| LazyExpiry.OthersAreUntouched | internal/daemon/service.go:277-310 | a request presenting one token leaves every other consumer with exactly its unexpired leases, each owning the buffer it owned |
| DaemonIsolation.ConsumersAreIsolated | internal/daemon/service.go:234-310 | in the interleaved daemon such a step leaves every other consumer's unexpired leases in place and their secrets byte for byte |
| LazyExpiry.AnswersAreOnesOwn | internal/daemon/service.go:349-367 | when a caller is told something and what: a status shows exactly the presenting consumer's unexpired leases, each as stored; execution gets the lease named exactly when it and its consumer have not expired and it is no SSH lease; a grant looks up its own consumer and answers with the new lease and the unexpired leases that consumer had |
| DaemonMeanings.SweepMeans | internal/daemon/service.go:618-633 | after a sweep just the consumers and leases that had not expired are there, unchanged, with their secrets |
| DaemonMeanings.StatusMeans | internal/daemon/service.go:277-286 | a status is answered exactly to the token of a consumer that has not expired, with exactly its current leases |
| DaemonMeanings.LookUpMeans | internal/daemon/service.go:172-183 | a grant finds its consumer under exactly the same condition |
| DaemonMeanings.ExecuteMeans | internal/daemon/service.go:349-367 | execution is given a lease exactly when it is current and no SSH lease, and then that very lease |
| DaemonMeanings.RevokeMeans | internal/daemon/service.go:289-310 | the answer is true exactly for a consumer, or a lease, that has not expired; then just that is gone, everything else that is current stays, and one event of the right kind and words is journalled after the sweep, the consumer's own being its last |
| DaemonMeanings.AdminRevokeMeans | internal/daemon/service.go:314-336 | the same for the unexpired consumer with that identifier, and nothing but a sweep when there is none |
| DaemonMeanings.InstallMeans | internal/daemon/service.go:234-267 | a grant is installed exactly when its consumer is new under a token that is nobody's, or has not expired and is still the one looked up; then the lease is there with its secret in place of what the consumer had of the profile, every other current lease stays, and the grant is journalled last |
| DaemonMeanings.NewConsumersAreNoted | internal/daemon/service.go:244-249 | a consumer made by a grant is journalled |
| DaemonMeanings.ReplaceNotes | internal/daemon/service.go:254-259 | every lease a grant replaces is one of its consumer's for the profile, and is journalled as revoked |
| DaemonMeanings.OpenMeans | internal/daemon/service.go:429-434 | opening adds the one session, drops those that have run out and is journalled; nothing else changes |
| DaemonMeanings.ConsumeMeans | internal/daemon/service.go:524-535 | an update is let through exactly by an unexpired session of its profile, which it uses up |
| DaemonMeanings.EndMeans | internal/daemon/service.go:512-522 | ending takes away just the session named, and only for its own profile |
| DaemonMeanings.UpdateMeans | internal/daemon/service.go:469-473 | committing takes away just the profile's leases, expired or not, and is journalled last |
| DaemonMeanings.DeleteMeans | internal/daemon/service.go:493-501 | clearing a deleted profile takes away just its leases and its sessions |
| DaemonMeanings.CloseMeans | internal/daemon/service.go:86-91 | closing leaves no consumer, lease or session and journals nothing |
| DaemonMeanings.TickMeans | internal/daemon/server.go:107-115 | the ticker's sweep leaves just what is current, sessions included |
| DaemonMeanings.PlanJournals | internal/daemon/service.go:635-675 | a clearing loop journals one event for each thing it ends, in the order in which it ends them |
| DaemonMeanings.SweepNotes | internal/daemon/service.go:618-633 | with which kind, names and words a sweep journals each of them |
| DaemonMeanings.ProfileNotes | internal/daemon/service.go:664-675 | and with which the clearing of a profile does |
| DaemonSectionLemmas.SweepDone | internal/daemon/service.go:618-633 | when the sweep's outer loop has no consumer left, what it has ended, in whatever order, is a plan for exactly the leases and consumers due; the loops themselves are in `ExpireLocked` |
| DaemonSectionLemmas.ProfileDone | internal/daemon/service.go:664-675 | when the outer loop over consumers is through, what it has ended is a plan for exactly the profile's leases; the loops themselves are in `ClearProfileLeasesLocked` |
| DaemonSectionLemmas.ConsumerPlanned | internal/daemon/service.go:645-653 | clearing a consumer ends all its leases and then itself |
| DaemonState.EndAllRemoves | internal/daemon/service.go:618-675 | what a plan of endings leaves does not depend on its order |
| DaemonService.ClearBytes | internal/daemon/service.go:771-775 | every byte of the buffer is zeroed |
| DaemonService.Service.RecordLocked | internal/daemon/service.go:694-706 | one event with a new revision is appended and the journal trimmed to its limit |
| DaemonService.Service.ClearLeaseLocked | internal/daemon/service.go:635-643 | the lease is dropped with its bytes zeroed, all other owners keep theirs, and the revision moves |
| DaemonService.Service.ClearConsumerLocked | internal/daemon/service.go:645-653 | the consumer's leases and then the consumer are ended and journalled, each buffer zeroed |
| DaemonService.Service.ExpireLocked | internal/daemon/service.go:618-633 | the nested loops carry out a sweep as specified, on the real buffers |
| DaemonService.Service.ClearProfileLeasesLocked | internal/daemon/service.go:664-675 | the loops end the profile's leases as specified, on the real buffers |
| DaemonService.Service.EndSessionsLocked | internal/daemon/service.go:677-692 | the loops over management sessions drop and zero exactly those meant |
| DaemonService.Service.Close | internal/daemon/service.go:86-91 | all consumers and sessions go, every buffer they held is zero, and nothing is journalled |
| DaemonService.Service.Sweep | internal/daemon/server.go:107-115 | the ticker's sweep of consumers, leases and sessions |
| DaemonService.Service.ConsumerStatus | internal/daemon/service.go:277-286 | after a sweep, the presenting consumer as the API shows it, or nothing |
| DaemonService.Service.GrantLookUp | internal/daemon/service.go:174-183 | after a sweep, the presenting consumer's identity, or nothing |
| DaemonService.Service.GrantInstall | internal/daemon/service.go:236-267 | sweep, admit the consumer, replace its lease for the profile and install the new one, or refuse and zero the secret |
| DaemonService.Service.Revoke | internal/daemon/service.go:289-310 | carries out on the real buffers, after a sweep, the revocation that `RevokeMeans` spells out, with its answer |
| DaemonService.Service.AdminRevoke | internal/daemon/service.go:314-336 | the same by the consumer's public identifier, as `AdminRevokeMeans` spells out |
| DaemonService.Service.ExecuteLookUp | internal/daemon/service.go:349-367 | after a sweep, a fresh copy of the secret of the lease that `ExecuteMeans` says is given, or nothing |
| DaemonService.Service.OpenSession | internal/daemon/service.go:430-434 | after a sweep of sessions, a new one owns the secret just read, under a new token, and is journalled |
| DaemonService.Service.ConsumeSession | internal/daemon/service.go:524-535 | an unexpired session of that profile is used up and zeroed, and any other token changes nothing but what the sweep of sessions does |
| DaemonService.Service.EndProfileManagement | internal/daemon/service.go:512-522 | the session named is dropped and zeroed without a sweep |
| DaemonService.Service.CommitUpdate | internal/daemon/service.go:469-473 | the profile's leases are ended and the update journalled |
| DaemonService.Service.ClearDeleted | internal/daemon/service.go:493-501 | the profile's leases and sessions are ended |
| DaemonDurations.ApprovedIsInRange | internal/daemon/service.go:196-207 | whatever wraps in the conversion, an approved duration is between a minute and a day and within what the consumer has left |
| DaemonDurations.NanosExact | internal/daemon/service.go:196 | seconds become the intended nanoseconds exactly when the product fits 64 bits |
| DaemonDurations.ApprovedAsAsked | internal/daemon/service.go:196-207 | approval means what was asked, in range and cut to the consumer's remaining time, if and only if the request does not wrap or what it wraps to is refused as well |
| DaemonDurations.ZeroAsksForTheDefault | internal/daemon/service.go:150-207 | asking for nothing asks for the profile's default, or a day for a new consumer, and a consumer with less than a minute left is approved nothing |
| DaemonDurations.ConsumerAsAsked | internal/daemon/service.go:150-156 | the same for a new consumer's lifetime |
| DaemonDurations.WrapsToAMinute | internal/daemon/service.go:196-202 | a request out of all range that wraps into it |
| DaemonDurations.WrapsToTheDefault | internal/daemon/service.go:196-199 | a request that wraps to nothing and is approved as the profile's default |
| SshAgent.LeaseSshAgent.List | internal/daemon/ssh_agent.go:21-46 | after a sweep, every profile with a live SSH lease is listed once, with a key that one of its leases yields, and no other key is; it fails only when a live SSH lease yields none |
| SshAgent.LeaseSshAgent.Sign | internal/daemon/ssh_agent.go:48-79 | data that is not recognised for the key changes nothing; otherwise, after a sweep, it is signed only if a live SSH lease yields the key, refused for want of a lease only if none does and all yield one, and fails only if one yields none |
| SshAgent.LeaseSshAgent.ViewIsOfTheLeases | internal/daemon/ssh_agent.go:27-30 | what the loops look at is exactly the live SSH leases, each with its profile and the key its secret yields |
| SshAgent.LeaseSshAgent.OffersYield | internal/daemon/ssh_agent.go:27-76 | a key is in view exactly when a live SSH lease of that profile yields it |
| SshAgreement.ViewsAreOne | internal/daemon/ssh_agent.go:27-63 | when the daemon's buffers hold the bytes of the machine's, the class and the machine look at the same leases and keys |
| SshAgreement.OffersAreCurrent | internal/daemon/ssh_agent.go:21-63 | in the machine they are, after the sweep, exactly the SSH leases that had not expired before it, with the keys their secrets yielded then |
| SshAgent.ListAndSignAgree | internal/daemon/ssh_agent.go:21-79 | when the leases of a profile yield one key, signing succeeds exactly for the keys listed |
| SshAgreement.AgentAgrees | internal/daemon/ssh_agent.go:21-113 | in every reachable world data is signed for a key exactly when it is the encoding of a permitted request for that key and the key is listed; neither call fails on a stored secret, and listed keys are the configured ones |
| SshWire.RecogniserIsExact | internal/daemon/ssh_agent.go:81-113 | data is accepted exactly when it is, within the size limit, the encoding of a request for this key with an allowed method and tail |
| SshWire.SignsLoginsExactly | internal/daemon/ssh_agent.go:81-113 | byte by byte: what is accepted is, in this order, a session of 16 bytes at least, the byte 50, a user, "ssh-connection", a method, a byte that is not zero, "ssh-ed25519", this key, and nothing more or one host key, as the method says |
| SshWire.EncodeIsOnTheWire | internal/daemon/ssh_agent.go:82-92 | the encoding is the fields of section 7 of RFC 4252 one after the other |
| SshWire.LengthsAreBigEndian | internal/daemon/ssh_agent.go:93 | lengths are four bytes, the most significant first, as in section 5 of RFC 4251 |
| SshWire.DecodeEncode | internal/daemon/ssh_agent.go:82-92 | decoding gives back every request encoded |
| SshWire.EncodeDecode | internal/daemon/ssh_agent.go:82-92 | encoding a decoded request gives back the data, up to the boolean byte |
| SshWire.RequestsAreUnambiguous | internal/daemon/ssh_agent.go:81-113 | one encoding stands for one request |
| SshWire.OnlyString | internal/daemon/ssh_agent.go:104-107 | the tail of the host-bound method is exactly one string |
| Versions.ParseVersion | internal/updatecheck/checker.go:180-209 | the parser's loop over the three core numbers |
| Versions.CheckPrerelease | internal/updatecheck/checker.go:228-253 | the nested loops accept exactly the prereleases whose identifiers are all valid |
| Versions.ComparePrereleaseLoop | internal/updatecheck/checker.go:255-293 | the index loop decides at the first difference and else by length |
| VersionParsing.ReadsBack | internal/updatecheck/checker.go:180-209 | every proper version as written, with or without "v" and build metadata, parses to itself |
| VersionParsing.AcceptsOnlyProper | internal/updatecheck/checker.go:180-209 | nothing with a negative or overlong number or an invalid identifier is accepted |
| VersionParsing.AcceptedExactly | internal/updatecheck/checker.go:180-209 | a text parses to a version exactly when it is that version written out, with numbers in range and valid identifiers: perhaps between spaces, after one "v", with a dangling hyphen or build metadata |
| VersionParsing.DanglingHyphen | internal/updatecheck/checker.go:185-189 | a version with nothing after its hyphen is read as a release |
| VersionOrder.CompareIsATotalOrder | internal/updatecheck/checker.go:211-226 | on texts that parse: antisymmetric, transitive, zero exactly for equal numbers and prerelease, and 1 for the higher numbers and for a release against its prereleases |
| VersionOrder.WellReadExactly | internal/updatecheck/checker.go:295-301 | an identifier is read as the standard reads it exactly when it is no hyphen with digits only and no number beyond 64 bits |
| VersionOrder.AgreesWithSemVer | internal/updatecheck/checker.go:211-293 | on parsed versions, precedence is that of section 11 of Semantic Versioning 2.0.0 when their identifiers are well read; `CompareIsSemVer` says it of the texts |
| VersionOrder.CompareIsSemVer | internal/updatecheck/checker.go:211-226 | comparing two texts gives the sign of their precedence in section 11, left against right, when both parse and are well read |
| VersionOrder.UnparsedAreEqual | internal/updatecheck/checker.go:211-216 | a text that does not parse compares equal to everything and no update is announced |
| VersionOrder.AnnouncedExactly | internal/updatecheck/checker.go:120-128 | an update is announced exactly when the latest release comes after the current version |
| VersionOrder.StandardExamples | internal/updatecheck/checker.go:255-293 | the order used as the standard orders its own examples |
| VersionOrder.SemVerExactlyWhenWellRead | internal/updatecheck/checker.go:211-293 | and a version is ordered so against all of those exactly when it is one of them |
| Redaction.Redact | internal/execution/executor.go:169-177 | the loop replaces each non-empty value in turn |
| Redaction.ReplacesLeftmost | internal/execution/executor.go:173 | replacing puts the marker in place of the leftmost occurrences that do not overlap, the text between them unchanged |
| Redaction.CutLeftmost | internal/execution/executor.go:173 | every text is made of such occurrences and what is between them |
| Redaction.NothingSensitiveIsLeft | internal/execution/executor.go:95-100 | a value that does not overlap the marker is gone, whatever the other values, their order and overlaps |
| Redaction.AlwaysGoneExactly | internal/execution/executor.go:169-177 | a value is gone from every text with every list exactly when it cannot be laid over the marker |
| Redaction.OverlapsInTheWord | internal/execution/executor.go:173 | for a value without angle brackets that means exactly: it is not part of the word "redacted" |
| Redaction.GoneAloneExactly | internal/execution/executor.go:155-157 | with the list of that value alone, as for a secret that holds no URL's password, it is gone from every text exactly when it cannot be laid over the marker where the text before it leaves it to be found first |
| Redaction.GoneAloneOnly | internal/execution/executor.go:155-177 | a value for which the two conditions differ |
| Redaction.CleansExactlyWhenTellable | internal/execution/executor.go:169-177 | a list of values without brackets cleans every text exactly when none is part of that word |
| Redaction.RedactingTwice | internal/execution/executor.go:169-177 | redacting again changes nothing |
| Redaction.CleanTextStands | internal/execution/executor.go:169-177 | text without sensitive values is returned as it is |
| Execution.BoundedBuffer.Write | internal/execution/executor.go:39-48 | for every split of a stream the buffer holds its first bytes up to its room, is marked truncated exactly when there were more, and takes all the writer offers |
| Execution.BoundedBuffer.String | internal/execution/executor.go:54-60 | the bytes held, with the notice exactly when truncated |
| Execution.RunCommand | internal/execution/executor.go:62-101 | what the child is started with, including its time limit, and the result for every way it may end |
| Execution.LimitMeans | internal/execution/executor.go:63-65 | a child runs for a second to half an hour: as long as asked, or five minutes when that is out of range |
| Execution.ExitCodeMeans | internal/execution/executor.go:69-94 | the exit code and text for each way a run may end |
| Execution.LongOutputIsCut | internal/execution/executor.go:27-60 | output beyond a mebibyte reaches the caller as its first mebibyte and the notice |
| Execution.FailureIsTold | internal/execution/executor.go:86-100 | why a program could not be run is told after what it had written |
| Execution.NothingSensitiveIsReported | internal/execution/executor.go:66-100 | no value clear of the marker is in the output returned, or in the error text unless a fixed message holds it |
| Execution.CleanOutputIsKept | internal/execution/executor.go:95-100 | output that fits and holds no value is returned byte for byte |
| Environment.MinimalEnvironment | internal/execution/executor.go:123-142 | the loop keeps the allow-listed bindings in order and adds a search path when there is none |
| Environment.WithEnvironment | internal/execution/executor.go:144-153 | the loop drops other bindings of the name and appends the new one |
| Environment.ChildSees | internal/execution/executor.go:123-153 | under every name the child sees the secret once, the daemon's own allow-listed values, always a search path, and nothing else |
| Environment.BindsExactlyOnce | internal/execution/executor.go:144-153 | the value is the one binding of the name exactly when the name has no equals sign |
| Environment.ValidNamesAreSafe | internal/daemon/service.go:730-740 | a validated name has none and is not the search path |
| Environment.NamesExactly | internal/daemon/service.go:730-740 | a name passes exactly when it looks like a variable and is, in any mixture of cases, none of the nine that shells and interpreters obey and no loader's |
| Environment.EntriesAreBindings | internal/execution/executor.go:123-153 | no entry escapes that account by not being a binding |
| SkillTree.TreeHash | internal/agentconnections/manager.go:504-542 | the two loops give the fingerprint of the tree whatever the order of the walk, and fail exactly on what is not accepted, or on a directory or file that cannot be read |
| SkillTree.CopyTree | internal/agentconnections/manager.go:473-502 | the loop copies the whole tree exactly, or fails on what is not accepted or not readable |
| SkillTree.HashIsOfTheFiles | internal/agentconnections/manager.go:504-542 | two walks of two trees with the same files give one fingerprint |
| SkillTree.SameHashSameFiles | internal/agentconnections/manager.go:529-541 | without NULs in payloads, one fingerprint means the same paths and payloads |
| SkillTree.PinnedExactly | internal/agentconnections/manager.go:529-541 | against payloads with NULs, of any size, a fingerprint pins its files exactly when there is at most one |
| SkillTree.PinnedWhenSmall | internal/agentconnections/manager.go:519-541 | the same against accepted files at paths one tree can hold, when the first two files together are within the limit on one |
| SkillReadings.PinnedWithinExactly | internal/agentconnections/manager.go:519-541 | in general, NULs in payloads included, an accepted set of files is told from all others that a tree can hold exactly when its stream has one reading as ascending paths of such a tree with payloads that fit |
| SkillTree.SortSorts | internal/agentconnections/manager.go:529 | the paths are put in ascending order and none is lost |
| SkillInstall.InspectSkill | internal/agentconnections/manager.go:418-434 | the standing of the skill, including trees that are missing, unsafe or unreadable |
| SkillInstall.CurrentExactly | internal/agentconnections/manager.go:418-434 | when no payload on either side holds a NUL, an installed skill is called current exactly when its files are the source's |
| SkillInstall.CurrentExactlyForOne | internal/agentconnections/manager.go:418-434 | the same whatever is installed, when the source is one file without a NUL |
| SkillInstall.ToldFromAllExactly | internal/agentconnections/manager.go:418-434 | in general, NULs included, inspection calls just the source's files current, whatever is installed, exactly when the source's stream has one reading |
| SkillInstall.SkillFiles.InstallSkill | internal/agentconnections/manager.go:436-471 | the files, the backup and the answer after a call, for every way its steps may fail |
| SkillInstall.InstallConnects | internal/agentconnections/manager.go:436-471 | after a success the installed skill is the source and inspection calls it connected |
| SkillInstall.FailedInstallLosesNothing | internal/agentconnections/manager.go:461-470 | after a failure the old skill is whole in its place or in the backup, or the new one whole in its place; with a successful rollback the old one is in its place |
| SkillInstall.InstallsExactly | internal/agentconnections/manager.go:436-471 | an installation succeeds exactly when the source can be copied, what was there can be taken away and all its removals and renamings work |
| SkillInstall.StandingExactly | internal/agentconnections/manager.go:418-434 | when the skill is unavailable, missing, or comparable, and that files then decide |
| AgentConfig.InspectServers | internal/agentconnections/manager.go:206-220 | the loop judges the first server of the name |
| AgentConfig.EqualStrings | internal/agentconnections/manager.go:674-684 | equal exactly when the lists are |
| AgentConfig.StandingIsOfTheEntries | internal/agentconnections/manager.go:189-265 | both hosts' inspections say the same thing of a configuration read as entries |
| AgentConfig.JsonIsExactly | internal/agentconnections/manager.go:254-264 | Claude Code's entry is in order exactly when it is a stdio server that runs the helper with the one argument "mcp" and no environment of its own |
| AgentConfig.ServersAreExactly | internal/agentconnections/manager.go:208-220 | Codex's list is exactly when its first server of the name is that one, enabled and with no directory; and the entry is missing exactly when no server has the name |
| AgentConfig.CombinedIsTheWorse | internal/agentconnections/manager.go:390-406 | the combined state is the worse of the two, and a repair may start exactly when both can be seen and one is not right |
| AgentRepair.Agent.RestorePrivateFile | internal/agentconnections/manager.go:576-616 | the file is put back only if its bytes are as expected, a missing file counting as no bytes |
| AgentRepair.Agent.RepairMCP | internal/agentconnections/manager.go:299-361 | the file, error and commands run, with other programs writing in every gap |
| AgentRepair.Agent.Repair | internal/agentconnections/manager.go:267-297 | a whole repair, from inspection to inspection |
| AgentRepair.FailedAddPutsBack | internal/agentconnections/manager.go:318-327 | for all inputs: when the file is reported restored and when untouched, and that it is then the original, or as its last writer left it |
| AgentRepair.FirstLostExactly | internal/agentconnections/manager.go:304-307 | another program's change between the two reads is lost exactly when it is of an absent against an empty file and the file is put back |
| AgentRepair.EarlyLostExactly | internal/agentconnections/manager.go:308-318 | a change after the second read, or after a removal and before the file is read again, is lost with any bytes when the file is put back |
| AgentRepair.LateLostExactly | internal/agentconnections/manager.go:318-322 | a change before adding is lost with any bytes, and one after adding exactly when it has the bytes expected, by standing: for a missing entry that is absent against empty |
| AgentRepair.LastLostExactly | internal/agentconnections/manager.go:576-616 | a change between the comparison and the renaming is lost with any bytes |
| AgentRepair.MissingLosesExactly | internal/agentconnections/manager.go:304-326 | for a missing entry and a command that leaves the file alone when it fails, the exact case in which what others left is not what stays; in every other it is |
| AgentRepair.OriginalOrTheirsExactly | internal/agentconnections/manager.go:318-327 | after a failed add the file is the original or as another program wrote it, unless it is not put back, nobody wrote after adding, and the failed command left something of its own |
| AgentRepair.TidyLeavesNothing | internal/agentconnections/manager.go:318-327 | with a command that leaves the file alone when it fails, that always holds for a missing entry |
| AgentRepair.LeftoversCanStay | internal/agentconnections/manager.go:318-327 | an undisturbed repair that ends with neither |
| AgentRepair.ChangesCanBeLost | internal/agentconnections/manager.go:576-616 | two concrete changes that are overwritten |
| AgentRepair.AnEmptyFileCanBeLost | internal/agentconnections/manager.go:581-587 | another program's new empty file that is removed |
| AgentRepair.QuietTransaction | internal/agentconnections/manager.go:299-361 | undisturbed, with a command that keeps to its entry, the entry is replaced exactly when the commands succeed and nothing else is changed |
| AgentRepair.RepairSucceedsExactly | internal/agentconnections/manager.go:267-297 | undisturbed, a whole repair meets no error exactly when it is due, the skill can be installed and the commands it needs succeed |
| AgentRepair.RepairSettles | internal/agentconnections/manager.go:267-297 | such a repair ends connected with foreign entries kept, and a second one changes nothing |
| AgentRepair.MutatesOnlyToRepair | internal/agentconnections/manager.go:267-297 | nothing is changed and no command run unless the combined state is missing or needs repair; the entry is removed only when it needs repair |

## Left out

- Go's `consumerSession` and `activeLease` objects are values in maps here; the secret buffers they hold are real arrays, so aliasing of secrets is modelled and aliasing of the records is not.
- One section's events carry one clock reading, where the code reads the clock for each; identifiers are the revision, which alone makes them distinct.
- Writing the journal to its file, and the order and the cut to 50 events in which `Snapshot` shows it; `Snapshot` itself is the sweep it makes.
- Event identifiers loaded from an earlier run, and overflow of the 64-bit revision counter.
- SHA-256 is taken to be injective, random tokens and identifiers to be new, and deriving an SSH public key from a secret is a parameter.
- Saturation of `time.Until` and `time.Add` at the ends of the time range.
- Errors of loading the configuration, of drawing random identifiers and of the validations of names and prompts end a call at the step where they may occur; their conditions are not spelled out except for durations, secrets and variable names.
- LazyExpiry.LazyIsEager: takes each request's clock reading to be made in order with the sweeps; a grant reads the clock before it takes the lock, twice, and `LookUpReadsEarlyExactly` and `GrantReadsEarlyExactly` say when a sweep in between tells.
- The agent's scratch copies of private keys, its listener and its read-only operations.
- Public keys are their wire form, and the type of the key asked for is an input; `ssh.ParsePublicKey` on the host key is a parameter, and so is parsing the secret as a URL to find the passwords to redact.
- A value cut in two by the capture limit is not a whole value any more, and nothing is claimed of its part.
- The child process itself: what it writes and how it ends are inputs.
- How a duration is shown in the timeout message is a parameter.
- Text is made of code units: invalid UTF-8 in a version is not modelled.
- SkillInstall.CurrentExactly: leaves out payloads with NULs, for which `ToldFromAllExactly` gives the exact condition on the source.
- SkillInstall.SkillFiles.InstallSkill: does not model what a failed removal leaves of the temporary directory, or other programs writing in the skill's directory.
- Reading a configuration's bytes as JSON, and what Codex lists for a file, are parameters; file modes, owners and links are folded into "unsafe".
- Repairing one named host or both, and the time limits on the agent's commands.
- HTTP serving, the API client, the command line, the keychain bridge, launchd, the doctor checks, the update cache and the user interface.
