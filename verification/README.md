# Verification of the toolkit's reconcilers

The toolkit is an infrastructure command line. Its hardest code is a set of small reconcilers: each reads remote
state, decides, writes, reads back, and must stay safe when any step fails or someone else moves first. This project
models ten of them in Dafny 4.11 and proves what they are for.

    dafny verify dfyconfig.toml

A system the toolkit talks to is a class whose calls may each succeed, fail, fail after taking effect, or claim a
success they did not have. What happens is a script or an oracle given with the object, and no contract restricts
it, so a contract holds for every sequence of outcomes, and a run that stops part-way is a run in which the next call
failed or raised an error that nothing handles. Requests are recorded in ghost traces by the object that receives
them, where their order or their number is the promise.

| file | what it models |
|---|---|
| `World.dfy` | the token account, R2 and the SOPS files, for the next four rows |
| `TokenRevoke.dfy`, `RevokeRuns.dfy` | retiring an R2 pair: revoke, prove, forget; what every run of it keeps |
| `TokenMint.dfy`, `MintRuns.dfy`, `MintLeftovers.dfy` | minting a token: prove, store, then replace; what can be left |
| `FleetMint.dfy`, `CalmRuns.dfy`, `RaisedRuns.dfy`, `FleetRuns.dfy` | minting for every node and the watcher; what every run of it keeps |
| `FleetScopes.dfy`, `FleetRotation.dfy` | what the tokens of such a run reach, and what a rotation replaces |
| `Argo.dfy`, `WaitStatus.dfy` | the guarded patch raced by lanes and the controller; the deadline poll |
| `AppDrill.dfy` | what makes a restore complete, over all histories of a table |
| `IsolationProbe.dfy` | a probe that sends real deletes and must destroy nothing |
| `AccessReview.dfy` | correcting account tiers, with accounts that must not be touched |
| `BranchProtection.dfy` | read, overlay, replace and verify against a server that clears what it does not get |
| `DriftCheck.dfy` | running a generator and putting everything back |
| `BoardWriter.dfy`, `BoardStreams.dfy`, `BoardParts.dfy`, `BoardSweep.dfy` | plan, write in batches, plan again |
| `AlertSmoke.dfy` | an experiment whose removal is always sent, and what its verdict implies |
| `CliReference.dfy` | the splice of a generated block |

## Where the code does less than is said of it

Each of these is proved, with the exact condition under which the code does keep the promise.

- Retiring a pair never leaves a live token without its id, except a user token retired with `--forget`: the account
  endpoint answers 404 for it (`OnlyAForgottenUserTokenIsLost`, `AForgottenUserToken`).
- A failed retirement can be finished by a rerun unless every unset of the id landed while an unset of the secret
  reported success and removed nothing (`RetireThenRerun`, `WhenARerunIsStuck`, `AStuckRun`).
- A read of SOPS answers nothing both for a key that is not there and for a file `sops -d` cannot open, and the mint
  acts on it. A restic password that is there is replaced if and only if its read failed and the write landed
  (`WhenAPasswordIsReplaced`, `AnUnreadPassword`); a whole pair is minted over without rotation if and only if a read of
  it failed and the write landed (`WhenAWholePairIsMintedOver`, `AnUnreadPair`); and after a rotation whose write
  answered true the old token lives on if and only if its id was not read or its DELETE did not take effect
  (`WhenAReplacedTokenLives`, `AnUnreadRotation`). Where every file opens the promises hold (`WhereEveryReadOpens`).
- A mint leaves a live token that is stored nowhere if and only if its POST was never answered, or it was not written
  and its DELETE did not take effect, or a listing raised (a hung or missing `aws`: no DELETE is sent, and the loop
  over nodes stops), or the write raised without landing (`WhenALiveTokenIsUnnamed`, `AHungListing`). SOPS names its
  dead token if and only if a write that answered false had landed and the DELETE worked (`WhenADeadTokenIsNamed`,
  `ALiedWrite`). The old token of a half pair is overwritten without a revoke unless rotation was asked
  (`WhenAReplacedTokenLives`, `AHalfPair`).
- A review that applies reports nothing when an edit raises: nobody after that account is edited, and a rerun is
  left with exactly the accounts that the run did not move (`RerunEditsTheRest`). A probe of isolation has no verdict
  when a request raises.
- A batch of writes to the board is not all or nothing: after a failed request any part of it may be there. Planning
  again finishes what is left (`ReplanIsTheRest`, `SweepAgainFinishes`).
- The guard on previews rests on the call's own read carrying a `resourceVersion`; the code patches unconditionally
  when it does not, and from any such state another lane's preview can then be replaced
  (`AnUnversionedReadCanAlwaysBreakIt`).
- A faithful restore passes, except for a table whose first row ever came after the snapshot: `sqlite_sequence` has no
  entry for it, and the row is reported lost (`FaithfulRestorePasses`, `FirstRowEverIsReportedLost`). A table with a
  creation column needs rows newer than the snapshot to have a later second (`PassMeansComplete`).
- Gitea's users are read whole only if the server's page cap is at least the 50 asked for, or everyone fits in one of
  its pages (`ReadPages`).
- Required checks pinned to an app lose the pin on a PUT, since the body carries names only (`EnsureProtection`), and
  people listed inside the reviews are sent back in the read shape (`TranslatedIffUnlisted`).
- The alert smoke's probe is left behind exactly when its removal did not take effect, and nobody looks at the
  removal's exit code (`RunAlertSmoke`). It can pass with no notification delivered after the removal, exactly when
  the recount missed a delivery: a failed `kubectl logs` counts none (`WhenAHigherCountIsADelivery`, `AFailedRecount`).
- The drift check treats an unlisted file that was already in the output directory as new, and deletes it
  (`UnlistedFileIsDeleted`). An interrupted generator's work is not undone at all (`RunWithCheck`).
- A README with END before START passes the count and fails on unpacking, not with the usage error (`SpliceOutcomes`).

## Model

| member | source | states |
|---|---|---|
| TokenRevoke.SpellingsSwap | toolkit/features/backup_token_revoke.py:60-63 | `a.b` and `a.b_` are each other's other spelling, and `a.b.` also leads to `a.b_`, for every name |
| TokenRevoke.SpellingsDiffer | toolkit/features/backup_token_revoke.py:45-52 | the two spellings of a name lead to different key paths, so a pair written down in one is not found under the other |
| TokenRevoke.OtherSpellingIs | toolkit/features/backup_token_revoke.py:60-63 | for every name that ends in neither `.` nor `_` and every run of those after it: the other spelling is the name itself if the run ends in `_`, else the name with one `_` |
| TokenRevoke.PairPathsAre | toolkit/features/backup_token_revoke.py:45-52 | and the two key paths of such a spelling, spelled out |
| TokenRevoke.HeldIffStands | toolkit/features/backup_token_revoke.py:64-75 | a path counts as held exactly if one of the three files has it, by their names |
| TokenRevoke.JudgeMeans | toolkit/features/backup_token_revoke.py:93-118 | each answer given before any request, with its exact condition: `absent` only if neither spelling is in any file, a request only about the one id every holding file agrees on |
| TokenRevoke.SopsPairStore.Load | toolkit/features/backup_token_revoke.py:196-201 | a file that is there is read whole, one that is gone is forgotten, and one that cannot be read changes nothing and raises |
| TokenRevoke.SopsPairStore.Open | toolkit/features/backup_token_revoke.py:184-194 | the loop over the files computes the first step of the command; when it opens, what the store holds is what all three files hold |
| TokenRevoke.SopsPairStore.Unset | toolkit/features/backup_token_revoke.py:212-215 | one unset and the reading again of its file, after which the store again agrees with the files |
| TokenRevoke.UnsetAll | toolkit/features/backup_token_revoke.py:159-162 | the loop computes the unsets that UnsetsMean is about, stopping at the first that fails |
| TokenRevoke.ForgetPair | toolkit/features/backup_token_revoke.py:156-165 | the forgetting half, on decrypted files, computes what ForgetMeans is about |
| TokenRevoke.RevokeToken | toolkit/features/backup_token_revoke.py:133-153 | DELETE and proof compute what RevokeMeans is about |
| TokenRevoke.RetireToken | toolkit/features/backup_token_revoke.py:120-167 | the run from its first request computes what RetireIdMeans is about |
| TokenRevoke.RevokePair | toolkit/features/backup_token_revoke.py:77-167 | the retirement of a pair from decrypted files computes its state function |
| TokenRevoke.Retire | toolkit/features/backup_token_revoke.py:233-258 | the command computes, for every outcome of every call, the state function that all results below are about |
| RevokeRuns.WhyAnUnsetRefuses | toolkit/features/backup_token_revoke.py:159-215 | an unset ends the run exactly if its file could not be read again, or else its own answer was false, and the refusal says which |
| RevokeRuns.UnsetsMean | toolkit/features/backup_token_revoke.py:159-162 | on every outcome the trace gains unsets of that key from a prefix of the files, only the last of which may have failed, and the files are what those unsets made of them |
| RevokeRuns.ForgetMeans | toolkit/features/backup_token_revoke.py:156-165 | the trace gains the unsets of the secret, then of the id, and no unset of the id unless every file holding the secret answered true; success means neither key is held by any file |
| RevokeRuns.RevokeMeans | toolkit/features/backup_token_revoke.py:133-153 | only a 404 on that same id after the DELETE counts as revoked; a DELETE that answered success and did nothing is caught |
| RevokeRuns.RetireIdMeans | toolkit/features/backup_token_revoke.py:120-167 | the DELETE, the proof and the unsets are in the trace in that order on every outcome; a refusal before the unsets leaves the files as they were; and the exact outcome when nothing fails (revoked, forgotten, or unknown token) |
| RevokeRuns.RetiredMeans | toolkit/features/backup_token_revoke.py:77-167 | the whole command for every outcome of every call: an unreadable file stops it before any request, and otherwise the answer, what was sent and what is left |
| RevokeRuns.WhenAPairIsAbsent | toolkit/features/backup_token_revoke.py:93-108 | for every spelling whose own two paths are in no file and not in the catalog, by the literal paths: the command refuses for the other spelling exactly if a file has a key of that, else answers `absent`, and changes and asks nothing either way |
| RevokeRuns.AWrongSpelling | toolkit/features/backup_token_revoke.py:102-108 | `a.b`, when common holds `a.b_access_key_id`: refused, not absent |
| RevokeRuns.IdIsUnsetLast | toolkit/features/backup_token_revoke.py:156-162 | read off the trace of any run: before any unset of the id the account answered 404 for it and the secret was unset, with the answer true, from every file that held it |
| RevokeRuns.SecretIsGoneFirst | toolkit/features/backup_token_revoke.py:156-162 | and unless an unset claimed what it did not do, the secret is in no file when the first unset of the id is sent |
| RevokeRuns.NoTokenIsOrphaned | toolkit/features/backup_token_revoke.py:3-7 | at the end of any run, normal or stopped by a failure, a token still alive and named in SOPS before is still named |
| RevokeRuns.OnlyThePairChanges | toolkit/features/backup_token_revoke.py:156-162 | every other key of every file is as it was |
| RevokeRuns.AgreedStays | toolkit/features/backup_token_revoke.py:156-162 | whatever copies of the id are left still agree, and if none is left the token is dead |
| RevokeRuns.RetireThenRerun | toolkit/features/backup_token_revoke.py:156-162 | after a run that failed anywhere, a failure-free rerun with apply and forget leaves both keys nowhere and the token dead if and only if the id is still readable or the secret is gone too, which every run leaves unless a call reported a success it did not have; otherwise the rerun is refused for the missing id |
| RevokeRuns.WhenARerunIsStuck | toolkit/features/backup_token_revoke.py:156-162 | the id is gone and the secret is left exactly if every unset of the id landed and an unset of the secret answered true without landing |
| RevokeRuns.AStuckRun | toolkit/features/backup_token_revoke.py:156-162 | a run of the command in which that happens, and the refused rerun |
| RevokeRuns.OnlyAForgottenUserTokenIsLost | toolkit/features/backup_token_revoke.py:121-125 | the promise that no live token loses its id fails exactly for a user token (which the endpoint answers 404 for) retired with forget |
| RevokeRuns.AForgottenUserToken | toolkit/features/backup_token_revoke.py:121-125 | any such token, with nothing failing: forgotten, both keys unset, and no token of the account touched |
| TokenMint.TryBucket | toolkit/features/backup_node_credentials.py:226-233 | up to four listings of a bucket, until one works or raises, with a sleep between two |
| TokenMint.ScopeError | toolkit/features/backup_node_credentials.py:217-242 | the loops of the check compute the verdict that ScopeMeans is about |
| TokenMint.ScopeMeans | toolkit/features/backup_node_credentials.py:217-242 | passes only if the token reaches every readable bucket and not the refused one, whose denial was the last answer; is broken exactly if a listing raised, and nothing is listed after it; a bucket is given up on only after four listings; exact when nothing fails |
| TokenMint.LookUp | toolkit/features/backup_node_credentials.py:261-264 | the two reads of a pair, the second only when the first found an id; a file that cannot be opened reads as one without the key |
| TokenMint.MintToken | toolkit/features/backup_node_credentials.py:245-283 | one mint computes the state machine the lemmas below are about, for every outcome of every call, the reads of SOPS and raises included |
| MintRuns.MintIsARun | toolkit/features/backup_node_credentials.py:245-283 | every mint is one of these runs, told by what it read and by which of seven ways it ended; for each, exactly what it sent, which token is left, whether the pair was written and what the caller is told |
| MintLeftovers.TraceTells | toolkit/features/backup_node_credentials.py:245-283 | a call is in the trace exactly if the run made it, so the results below are read off the trace |
| MintLeftovers.WhenADeadTokenIsNamed | toolkit/features/backup_node_credentials.py:277-278 | the minted pair names a dead token if and only if a write that answered false had landed and the new token's DELETE took effect |
| MintLeftovers.WhenALiveTokenIsUnnamed | toolkit/features/backup_node_credentials.py:261-278 | the new token lives and is named nowhere if and only if its POST was never answered, or it was not written and its DELETE did not take effect, or a listing raised, or the write raised without landing |
| MintLeftovers.NothingIsDeletedAfterARaise | toolkit/features/backup_node_credentials.py:245-283 | after a listing or a write that raised, no DELETE of any token is sent, and the exception leaves the function |
| MintLeftovers.WhenAReadIsEmpty | toolkit/features/configuration.py:87-108 | a key that is there reads as absent exactly if none of the files that show it could be opened |
| MintLeftovers.WhenAPairIsKept | toolkit/features/backup_node_credentials.py:261-264 | kept exactly if both keys were read and no rotation was asked, and then nothing else is done |
| MintLeftovers.WhereEveryReadOpens | toolkit/features/backup_node_credentials.py:261-264 | in a run in which every file could be opened: kept exactly when the pair is whole and no rotation was asked, and the id to replace is the one the files show |
| MintLeftovers.WhenAWholePairIsMintedOver | toolkit/features/backup_node_credentials.py:261-278 | a whole pair is written over without rotation if and only if a read of it came back empty, which takes a file that could not be opened, and the write landed; no token that lived is deleted |
| MintLeftovers.WhenAReplacedTokenLives | toolkit/features/backup_node_credentials.py:280-283 | a live token is deleted exactly by a DELETE that took effect; one is sent exactly if a rotation was asked, the write answered true and its id was read; so after a rotation whose write answered true the old token lives on if and only if its id was not read or its DELETE did not take effect |
| MintLeftovers.ReplaceAnswers | toolkit/features/backup_node_credentials.py:280-283 | `rotated` is answered exactly if the DELETE of the old token answered success; a 404 or an HTTP error is a failure |
| MintLeftovers.ARotationIsARevocation | toolkit/features/backup_node_credentials.py:280-283 | unless a call claims what it did not do, a mint that answers `rotated` stored the new pair and the token it read of the old one is dead |
| MintLeftovers.LivePairsStayLive | toolkit/features/backup_node_credentials.py:245-283 | a SOPS key that named a live token names a dead one afterwards if and only if it is this pair's, a write answered false and had landed and the DELETE worked, or it is another copy of the id a rotation deleted |
| MintLeftovers.NetEffect | toolkit/features/backup_node_credentials.py:245-283 | exactly which runs have the net effect that is meant: nothing, or, unless the pair is whole and to be kept, one new stored token, or new for old |
| MintLeftovers.CalmMint | toolkit/features/backup_node_credentials.py:245-283 | when no call fails the pair is stored exactly if the granted scope is the one needed, and otherwise the new token is gone |
| MintLeftovers.AHungListing | toolkit/features/backup_node_credentials.py:210-213 | a run in which the first listing hangs: the new token lives, is stored nowhere, and no DELETE was sent |
| MintLeftovers.ALiedWrite | toolkit/features/backup_node_credentials.py:277-278 | a run in which the write answers false and had landed: SOPS names a dead token |
| MintLeftovers.AHalfPair | toolkit/features/backup_node_credentials.py:261-283 | any half pair minted without rotation and without a failure: its id is overwritten and its token lives on |
| MintLeftovers.AnUnreadPair | toolkit/features/backup_node_credentials.py:378-380 | any whole pair in prod's file, when that file cannot be opened for the read of the id and nothing else fails: it is minted over without rotation, and its token lives on |
| MintLeftovers.AnUnreadRotation | toolkit/features/backup_node_credentials.py:280-283 | the same with rotation: the pair is replaced and the old token is never deleted |
| MintLeftovers.RaiseIsLast | toolkit/features/backup_node_credentials.py:245-283 | a read, a listing or a write that raised is the last call of its mint, and the exception is what the caller gets |
| FleetMint.PairsGoWhereTheyBelong | toolkit/features/backup_node_credentials.py:100-111 | node pairs go to prod, passwords and the watcher pair to common |
| FleetMint.PathsApart | toolkit/features/backup_node_credentials.py:84-97 | no two keys this module mints share a path, across nodes and kinds |
| FleetMint.EnsureResticPassword | toolkit/features/backup_node_credentials.py:359-365 | the password's turn computes the state function of the next rows, for every outcome of its read and its write |
| FleetRuns.EnsureSends | toolkit/features/backup_node_credentials.py:359-365 | what it sends; a password is written only after a read that answered nothing, and generated means it was written |
| FleetRuns.WhenAPasswordIsReplaced | toolkit/features/backup_node_credentials.py:359-365 | a password that is there is replaced if and only if its read answered nothing, which takes common's file not to open, and the write landed |
| FleetRuns.AnUnreadPassword | toolkit/features/backup_node_credentials.py:359-365 | any password, when common's file cannot be opened for its read and nothing else fails: another one takes its place and the answer is `generated` |
| FleetRuns.EnsureLeavesOne | toolkit/features/backup_node_credentials.py:359-365 | where keys are in their places a turn that succeeds leaves a password, and the one that was there goes only after a read that failed |
| FleetRuns.MintKeeps | toolkit/features/backup_node_credentials.py:245-283 | whatever fails, only the pair's two paths change, and without rotation no token that lived is deleted |
| FleetRuns.WholePairsStay | toolkit/features/backup_node_credentials.py:261-264 | without rotation a whole pair is changed only in a run in which a read failed |
| FleetMint.MintNodePair | toolkit/features/backup_node_credentials.py:286-317 | the node's mint computes the mint of its own bucket, with the one it must not reach |
| FleetMint.MintNode | toolkit/features/backup_node_credentials.py:431-450 | one node's turn computes its state function: the pair, then the password unless the mint failed |
| FleetMint.OtherBucket | toolkit/features/backup_node_credentials.py:432-439 | the bucket a node must be refused is never its own, unless the shared bucket is |
| FleetMint.MintTargets | toolkit/features/backup_node_credentials.py:430-450 | the loop over the nodes computes the turns, one a target, remembering a failure and stopping at a raise |
| FleetMint.MintWatcher | toolkit/features/backup_node_credentials.py:320-356 | the watcher's mint computes the mint of every node's bucket and the shared one |
| FleetMint.Preflight | toolkit/features/backup_node_credentials.py:399-428 | the config, the nodes asked for, the minter's token and the settings are looked at, in that order |
| FleetMint.MintAll | toolkit/features/backup_node_credentials.py:391-468 | the whole run computes the state function that the following rows are about, for every outcome of every call |
| CalmRuns.MintTwin | toolkit/features/backup_node_credentials.py:245-283 | a mint none of whose own calls fails, whatever may fail after it, does what it does when nothing ever fails |
| FleetRuns.PairMeans | toolkit/features/backup_node_credentials.py:286-317 | one node's mint, on every outcome: its id is read, only its two paths change, nothing follows a raise, and success means the pair is shown |
| FleetRuns.TurnMeans | toolkit/features/backup_node_credentials.py:431-450 | one node's turn, on every outcome: only its three paths change, a password that was there only after a read of it that failed, and success means all three are shown |
| FleetRuns.PreflightMeans | toolkit/features/backup_node_credentials.py:399-428 | it goes on exactly if what was asked for makes sense and the minter's token was read |
| FleetRuns.WatcherMeans | toolkit/features/backup_node_credentials.py:320-356 | the watcher's mint leaves every node's keys and passwords as they were |
| FleetRuns.TurnsMean | toolkit/features/backup_node_credentials.py:430-450 | whatever became of a turn, every other target has its own unless a call raised, and nothing is sent after one that did |
| FleetRuns.AllMeans | toolkit/features/backup_node_credentials.py:391-468 | on every outcome of the whole run: unless a call raised, the id of every target, and of the watcher, was read whoever had failed before, and if what was asked for makes no sense nothing is done; true only if everything asked for is in SOPS; a password is replaced only after a read of it that failed; without rotate no token that lived is deleted, and no whole pair of a node changes unless a read failed |
| RaisedRuns.MintTells | toolkit/features/backup_node_credentials.py:245-283 | one mint is ended by an exception exactly if a call it made raised one |
| RaisedRuns.AnExceptionWasRaised | toolkit/features/backup_node_credentials.py:391-468 | the whole run is ended by an exception exactly if a call it made raised one; any other failure, of whomever, is remembered and the run goes on |
| FleetRuns.OnlyWhatWasAsked | toolkit/features/backup_node_credentials.py:408-431 | one node asked for, and no key of another changes; the watcher alone, and none of the nodes |
| FleetRuns.SuccessStays | toolkit/features/backup_node_credentials.py:430-450 | a node whose turn succeeded has its pair and its password at the end, whatever became of the others |
| FleetRuns.OthersDoNotMatter | toolkit/features/backup_node_credentials.py:430-450 | so a node none of whose own calls fails has them at the end, whoever else failed, when scopes are granted as asked and no rotation is |
| FleetRuns.CalmAll | toolkit/features/backup_node_credentials.py:391-468 | when no call fails and tokens reach what was asked, everything asked for is minted |
| FleetScopes.TokensReachTheirOwn | toolkit/features/backup_node_credentials.py:286-356 | on every outcome of the whole run, any node's two keys in prod are as they were or those of one new token, which reaches that node's bucket and not the first other node's (or, for a lone node, the shared one); the watcher's in common likewise reach every node's bucket and the shared one, and not the one outside; and no key of any other path changes |
| FleetScopes.OtherIs | toolkit/features/backup_node_credentials.py:432-439 | the bucket a node must be refused is that of the first other node, and the shared one if there is none |
| FleetRotation.RotationRenews | toolkit/features/backup_node_credentials.py:391-468 | a run with rotate that answers true has replaced the pair of everyone asked for, the watcher included, by that of a new token, and the tokens named before are dead unless a read of SOPS failed or a call claimed what it did not do |
| Argo.SetRevision | toolkit/features/argo_manager.py:109-131 | the retry loop: held by a revision if and only if an attempt it reached read it, the call is neither forced nor to the release, and it is neither the release nor the call's own; revised from one if and only if an attempt it reached read it, was not held and its patch was accepted; how many patches it sent; a second one only after a conflict |
| Argo.WhenAReadHolds | toolkit/features/argo_manager.py:103-116 | in the transition system, both ways: a read finishes the lane as held exactly under that condition, and otherwise the lane goes on to patch |
| Argo.WhenAReadBreaks | toolkit/features/argo_manager.py:109-111 | a read that fails ends the call and changes nothing |
| Argo.WhenAPatchCommits | toolkit/features/argo_manager.py:117-131 | a patch commits exactly if its version still matches or it names none, else the lane reads again, once |
| Argo.WhenAPatchBreaks | toolkit/features/argo_manager.py:117-131 | a patch that was never answered ends the call as failed, and committed exactly if it took effect on a version that matched |
| Argo.TheReleaseIsNeverRefused | toolkit/features/argo_manager.py:103-112 | pointing back at the release commits, from every state |
| Argo.InvRun | toolkit/features/argo_manager.py:89-131 | the invariant of every reachable state of any interleaving of lanes, broken calls, unversioned reads and status writes |
| Argo.PreviewsAreNotReplaced | toolkit/features/argo_manager.py:99-131 | in every interleaving, whatever the other lanes read: an unforced call whose own patch named a version moves the revision only to the release, off the release, or onto itself, and reports the revision its commit replaced; each call commits at most once |
| Argo.VersionedRunsAreConditioned | toolkit/features/argo_manager.py:66-73 | where every read names a resourceVersion every commit is of that kind |
| Argo.AnUnversionedReadCanAlwaysBreakIt | toolkit/features/argo_manager.py:66-73 | from any state in which a lane read no resourceVersion, another lane can step in so that the unforced patch replaces its preview and misreports what it replaced |
| Argo.UnversionedReadBreaksThePromise | toolkit/features/argo_manager.py:66-73 | a concrete run of two lanes in which that happens |
| Argo.OneStatusWriteIsAbsorbed | toolkit/features/argo_manager.py:117-125 | a status write between read and patch costs one attempt: the second commits, once, with the right old revision |
| WaitStatus.LatestIsNewest | toolkit/features/argo_manager.py:179-187 | the chosen status is of the context, none of it is newer, and it is the first listed of the newest |
| WaitStatus.LatestIsUnique | toolkit/features/argo_manager.py:182-187 | that description fits one status only |
| WaitStatus.Wait | toolkit/features/argo_manager.py:214-255 | ends on the first fetch that settles or the first after the deadline, with the verdict and words that fetch calls for, after at most ceil(timeout / poll) + 1 fetches, and terminates for every sequence of answers |
| WaitStatus.FetchesAreBounded | toolkit/features/argo_manager.py:232-255 | how the bound on the sleeps bounds the fetches |
| WaitStatus.VerdictMeans | toolkit/features/argo_manager.py:225-231 | success exactly when the newest status of the last fetch is a success; cannot-check exactly when the last fetch failed |
| WaitStatus.WhatAFetchSays | toolkit/features/argo_manager.py:214-231 | which states of the newest status settle the wait, with which verdict and words: success, failure and error, and nothing else |
| WaitStatus.WhatNothingSays | toolkit/features/argo_manager.py:214-231 | a fetch that failed or holds no status of the context settles nothing |
| WaitStatus.LastReadIsTheLast | toolkit/features/argo_manager.py:214-255 | what an unreadable end reports is what the last fetch that was answered said |
| AppDrill.CompareTable | toolkit/features/app_drill.py:182-200 | one table's turn: its verdict, and exactly the lines its rows call for |
| AppDrill.Compare | toolkit/features/app_drill.py:178-201 | passes exactly when every live row of every table is kept or excused, and reports every judgement of every table |
| AppDrill.ParseRows | toolkit/features/app_drill.py:155-166 | computes the parse, and the version is the last version record's |
| AppDrill.ParseFinds | toolkit/features/app_drill.py:155-166 | a row is in the result exactly when a record of it was read, and says what some such record said |
| AppDrill.ParseReads | toolkit/features/app_drill.py:133-166 | parsing the query's answer on a table state gives that state back, its sequence entry included |
| AppDrill.OldOrNew | toolkit/features/app_drill.py:76-81 | over every history with ids never reused: a live row was there unchanged at any earlier point that knew its id, else its id is above the sequence of that point |
| AppDrill.PassMeansComplete | toolkit/features/app_drill.py:178-201 | for every history, snapshot point and restore that invented nothing and kept the sequence: the table passes if and only if every row live now and then is restored with its identity, and the newer rows can be dated |
| AppDrill.FaithfulRestorePasses | toolkit/features/app_drill.py:76-81 | a faithful restore of an AUTOINCREMENT table passes if and only if the snapshot had a sequence entry or the table is empty now |
| AppDrill.FirstRowEverIsReportedLost | toolkit/features/app_drill.py:184-197 | the case that fails: the first row a table ever had, inserted after the snapshot, is reported missing |
| IsolationProbe.MissingLock | toolkit/features/backup_isolation.py:55-71 | a lock is missing exactly when the rules are unread or none is enabled, on `data/`, and of at least the retention |
| IsolationProbe.YoungestPack | toolkit/features/backup_isolation.py:74-95 | a key only if it is a newest object and inside the retention by the margin; none exactly when every object is too old |
| IsolationProbe.YoungObjectIsLocked | toolkit/features/backup_isolation.py:46-48 | the arithmetic: such an object is held by the rule at any moment a request within the margin can arrive |
| IsolationProbe.WhenARuleHolds | toolkit/features/backup_isolation.py:46-48 | exactly which rules hold an object at every moment within the margin, so the margin is exact |
| IsolationProbe.AlwaysLocked | toolkit/features/backup_isolation.py:151-162 | so the bucket locks the named object at every such moment |
| IsolationProbe.ProbeCross | toolkit/features/backup_isolation.py:133-147 | two requests a pair, received by R2 in that order and each counted once as refused or as a problem; a refusal without AccessDenied is a problem; a request that raised is the last |
| IsolationProbe.LookForPack | toolkit/features/backup_isolation.py:153-161 | the rules are read, then, if they hold `data/`, the objects; an object is named only if it is a newest one, young enough, in a bucket whose rules hold it |
| IsolationProbe.ProbeOwn | toolkit/features/backup_isolation.py:149-173 | a node's own turn as R2 received it: at most one delete, only of an object that LookForPack named, and passed only if the lock refused it |
| IsolationProbe.DeleteOwn | toolkit/features/backup_isolation.py:162-173 | the delete of an object that the lock must hold, and when only the lock can have refused it |
| IsolationProbe.ProbeOthers | toolkit/features/backup_isolation.py:130-147 | the inner loop sends both requests of every other paired node once, unless one raised, and none but of probe keys is a delete |
| IsolationProbe.ProbeOther | toolkit/features/backup_isolation.py:130-147 | one step of it |
| IsolationProbe.ProbeOwner | toolkit/features/backup_isolation.py:128-173 | one bucket's turn: everything it has to ask was asked, and it passes exactly when its cross requests and own delete were refused for the right reasons |
| IsolationProbe.PairedNodes | toolkit/features/backup_isolation.py:120-126 | the pairs are those of the nodes that have one in SOPS, and every other node is a problem |
| IsolationProbe.ProbeOwners | toolkit/features/backup_isolation.py:128-173 | the outer loop: everything was asked unless a request raised, the count of refusals, every delete guarded, and the exact verdict when every request is served |
| IsolationProbe.AskedOfAll | toolkit/features/backup_isolation.py:128-173 | together the turns ask every pair against every other bucket, and every node's own turn |
| IsolationProbe.FleetIsFit | toolkit/features/backup_isolation.py:102-112 | the fleet is isolated exactly when every pair is there and each bucket is walled off and ready |
| IsolationProbe.Probe | toolkit/features/backup_isolation.py:102-182 | the verdict is over the requests R2 received: unless one raised, which is then the last, all of them were sent, and it is true if and only if there is a node, every pair is present and each was refused for the right reason, and then 2n(n-1) cross requests were; when every request is served the verdict is exactly the fleet's state; whatever the world, every delete names a probe key or an object that was guarded when the delete was sent; and under the premises no object of any bucket is removed, raised or not, whatever the tokens reach |
| AccessReview.ReadPages | toolkit/features/access_review.py:131-142 | the pages add up to the user list exactly when the server serves pages of the size asked for or all fits in its first page; otherwise the list ends after that page |
| AccessReview.Review | toolkit/features/access_review.py:268-279 | every live account gets exactly the finding its declared and live tier call for, the break-glass account's drift held back |
| AccessReview.HeldBackMeans | toolkit/features/access_review.py:314-340 | what each status means, and which accounts may be edited |
| AccessReview.ProtectedIsDeclared | toolkit/features/access_review.py:310-311 | the break-glass account is judged as an admin unless the declaration gives it a tier; nobody else's declaration moves |
| AccessReview.CorrectOne | toolkit/features/access_review.py:317 | one edit, of one account, what its answer and its fate make of it, and whether it raised |
| AccessReview.Correct | toolkit/features/access_review.py:317 | one edit an account in order, each to its declared tier, up to the first that raises; nobody else's tier changes, and nobody's after that one |
| AccessReview.EditAll | toolkit/features/access_review.py:317-320 | the edits are of editable accounts, once each, and of all of them unless one raised; which corrections are bounded |
| AccessReview.CorrectAndReadBack | toolkit/features/access_review.py:317-326 | an edit that raises leaves without a report; else every edited account is reported by the tier read back, never by the write's answer |
| AccessReview.ReadAndReview | toolkit/features/access_review.py:310-314 | the findings before any edit and the editable accounts; a ReviewError and any other error are told apart |
| AccessReview.ReconcileMerged | toolkit/features/access_review.py:312-326 | the run on the merged declaration: whom it edits, with apply only, and exactly how it ends |
| AccessReview.Reconcile | toolkit/features/access_review.py:285-326 | the review of one app: exactly the live, declared, unprotected, current accounts in another tier are edited, once, with apply, or the first of them if an edit raises; it reports exactly when no edit raised and both reads worked, each edited account as fixed (iff the second read is the declared tier), bounded or failed; everyone else keeps their tier |
| AccessReview.SecondRunEditsTheUnfixed | toolkit/features/access_review.py:314-326 | a second run would edit exactly the accounts the first did not report fixed |
| AccessReview.RerunEditsTheRest | toolkit/features/access_review.py:310-317 | however a run ended, a rerun is left with exactly the accounts that it was not sent to or that its edit did not move |
| AccessReview.ReconcileTwice | toolkit/features/access_review.py:285-326 | a second run edits only accounts the first did not move, and all of them if it reports; after a run that fixed everything it edited it writes nothing |
| AccessReview.KnownByTheirOwnAddress | toolkit/features/access_review.py:414-436 | the email-to-login map knows a user by their own address only, and only if no later user has it |
| AccessReview.GroupsOfNames | toolkit/features/access_review.py:360-380 | a user has groups exactly when the database has the user, and they are those of the user's entry |
| AccessReview.LagsIffBehind | toolkit/features/access_review.py:379-411 | a user lags exactly if an entry is missing on one side, or the two entries of the name have other groups, or another address is known |
| AccessReview.IdpGroupsDrift | toolkit/features/access_review.py:383-411 | one finding a user of either database; stale exactly if the user is missing from one side, or the two entries of that name have other groups, or another address is known |
| AccessReview.ReviewBehindIdp | toolkit/features/access_review.py:718-733 | with the identity provider unread nothing is corrected in the app, otherwise, with apply, the editable accounts that do not lag are, all of them unless an edit raises; nobody whose entries in the two databases differ is ever edited |
| BranchProtection.ProtectionChanges | toolkit/features/branch_protection.py:109-128 | no change exactly when strict is as declared and the contexts are the declared multiset; each change exactly when its part differs |
| BranchProtection.PutBody | toolkit/features/branch_protection.py:131-167 | the body carries every field the write takes, in the write shape, and the declared checks |
| BranchProtection.SameElsewhereIsTheRest | toolkit/features/branch_protection.py:61 | 'the rest is the same' means each of the eight booleans by name, every key of the reviews but the three read-only ones, and the restriction names |
| BranchProtection.ReplaceKeepsTheRest | toolkit/features/branch_protection.py:131-167 | the round trip across the two shapes: after a replacing server the checks are as declared, and each of the eight booleans, every key of the reviews but `url`, `required_signatures` and `contexts_url`, and the restriction names are as they were |
| BranchProtection.TranslatedIffUnlisted | toolkit/features/branch_protection.py:147-152 | the body is in the write shape exactly when the live reviews list nobody who may dismiss or bypass them: what is nested in the reviews is sent back as it was read |
| BranchProtection.KeptIffCarried | toolkit/features/branch_protection.py:131-136 | a write keeps the rest of the object if and only if its body carries all of it |
| BranchProtection.NaiveWriteClears | toolkit/features/branch_protection.py:10-17 | a body with only the checks keeps the rest exactly of an object with every flag off, no reviews and no restrictions |
| BranchProtection.EnsureProtection | toolkit/features/branch_protection.py:210-262 | whatever the server does, success is reported only if the object then agrees and enforces on admins what it did; at most one PUT, none if it agreed; against a replacing server no outcome, a PUT that failed after landing included, changes anything else, except that pinned checks lose their pins |
| BranchProtection.EnsureTwice | toolkit/features/branch_protection.py:210-262 | after a success, or a failure whose PUT had landed, a second call sends no PUT; and against a replacing server the two together keep the rest, whatever failed |
| DriftCheck.RestoreSnapshots | toolkit/cli/sync.py:66-72 | every snapshotted path is as snapshotted and no other path is touched |
| DriftCheck.TakeSnapshots | toolkit/cli/sync.py:89-91 | every listed file, absent ones included |
| DriftCheck.AddNewFiles | toolkit/cli/sync.py:103-107 | exactly the unlisted files now in the directory are added, as absent before |
| DriftCheck.Drifted | toolkit/cli/sync.py:116-128 | exactly the paths that appeared, vanished or differ after normalization |
| DriftCheck.RunWithCheck | toolkit/cli/sync.py:75-176 | for every generator: which tree is left, when it raises, is interrupted and neither, and the verdict exactly: no listed file appeared, vanished or normalizes differently, and no unlisted file is in the directory; after an interrupt nothing is put back |
| DriftCheck.NoTraceIffUndoable | toolkit/cli/sync.py:82-87 | the tree is exactly as before if and only if every unlisted path is as it was or is a file of the directory that did not exist |
| DriftCheck.PromisedCaseIsUndoable | toolkit/cli/sync.py:82-87 | a generator that writes only listed files and new files of a directory whose files are all listed meets that |
| DriftCheck.UnlistedFileIsDeleted | toolkit/cli/sync.py:103-113 | the case that does not: a file that was in the directory unlisted is deleted by the check itself |
| DriftCheck.InSyncMeansNoChange | toolkit/cli/sync.py:82-85 | with no normalization, in sync means the generator changed nothing |
| DriftCheck.InSyncMeans | toolkit/cli/sync.py:103-128 | that verdict is the one over the watched paths, each against what the check takes it to have been |
| BoardWriter.SendBatches | toolkit/features/board_streams.py:407-412 | the requests, of any positive size, concatenate to the writes up to the one that fails, none empty or over the size; on the board are then all the writes before the failed request and any part of its own; zero and negative sizes as `range` has them |
| BoardWriter.SendAll | toolkit/features/board_streams.py:407-412 | the loop itself: what was sent, what was written, and where it stopped |
| BoardWriter.ChosenIsBetween | toolkit/features/board_streams.py:387-412 | when the writes of a field agree, after any part of them it is as it was or as all of them leave it |
| BoardStreams.AddPrefixes | toolkit/features/board_streams.py:110-113 | refused exactly on a prefix already declared |
| BoardStreams.LoadStreams | toolkit/features/board_streams.py:101-115 | loads exactly when names and prefixes are distinct, named and present; each prefix maps to the stream that lists it |
| BoardStreams.LoadOverrides | toolkit/features/board_streams.py:117-125 | loads exactly when every key is a number and every stream is declared, and then maps each number to the last stream written for it |
| BoardStreams.AddPart | toolkit/features/board_streams.py:135-140 | refused exactly on a child that is its own parent or is listed already |
| BoardStreams.LoadParts | toolkit/features/board_streams.py:127-141 | loads exactly when no issue is its own part and no child is listed twice |
| BoardStreams.LoadRegistry | toolkit/features/board_streams.py:79-152 | a registry loads if and only if it does not contradict itself; then it says what is written, prefix by prefix and override by override, and every stream it maps to is declared; a problem it is refused for is there |
| BoardStreams.MakePlan | toolkit/features/board_streams.py:199-212 | the planning loop computes the plan the lemmas below are about |
| BoardStreams.PlanMeans | toolkit/features/board_streams.py:199-212 | every item is exactly one of change, unplaced and unchanged, and which |
| BoardStreams.DesiredIsDeclared | toolkit/features/board_streams.py:161-168 | every desired value is a declared stream |
| BoardStreams.WhereAnItemGoes | toolkit/features/board_streams.py:161-168 | where a loaded registry puts an item: the stream written for its number, else the one that lists its title prefix, else none |
| BoardStreams.ReplanIsTheRest | toolkit/features/board_streams.py:199-212 | planning again after any part of the changes was written calls for exactly the rest, with the same unplaced |
| BoardStreams.ReplanIsEmpty | toolkit/features/board_streams.py:199-212 | after all of them it calls for nothing |
| BoardStreams.EnsureField | toolkit/features/board_streams.py:360-385 | an existing field is never rewritten and is refused exactly when it lacks a stream |
| BoardStreams.Apply | toolkit/features/board_streams.py:402-412 | nothing is sent when an option is missing, which happens exactly when a change has none; else every change is written once, in order, or, after a failure, the changes the contract names `made` are on the board |
| BoardStreams.PlannedOptionsAreKnown | toolkit/features/board_streams.py:360-412 | after the field was ensured the option lookup of a plan cannot miss |
| BoardStreams.BoardHoldsTheWrites | toolkit/features/board_streams.py:402-412 | what the board holds after the writes is what planning again is told |
| BoardParts.PlanParts | toolkit/features/board_streams.py:475-505 | the nested loops compute the plan the lemmas below are about |
| BoardParts.PartsPlanMeans | toolkit/features/board_streams.py:475-505 | a link exactly for a declared child of a known open parent that has none, a conflict exactly for one with another, and every child in exactly one place |
| BoardParts.MissingMeans | toolkit/features/board_streams.py:475-505 | exactly which issues are missing, parents and children of open ones, and which parents are closed |
| BoardParts.OneDeclaredParent | toolkit/features/board_streams.py:135-141 | in a loaded registry no two parts claim a child, so it is linked at most once |
| BoardParts.ApplyParts | toolkit/features/board_streams.py:515-522 | the links are added in order up to the first request that fails, whose own link is made exactly if it took effect; the count is of all |
| BoardParts.AfterLinksMeans | toolkit/features/board_streams.py:515-522 | each link sets its own child's parent and nothing else |
| BoardParts.ReplanPartsIsTheRest | toolkit/features/board_streams.py:475-522 | planning again after any first part of the links calls for exactly the rest, with the same conflicts |
| BoardParts.ReplanPartsIsDone | toolkit/features/board_streams.py:475-522 | after all of them: no links, the same conflicts, missing and closed parents, and `linked` grown by their number |
| BoardSweep.LoadRegistry | toolkit/features/board_sweep.py:71-118 | loads exactly when every entry is a number and no issue is both kept and parked, and the problem it is refused for is there |
| BoardSweep.MakePlan | toolkit/features/board_sweep.py:143-171 | the two planning loops compute the plan the lemmas below are about |
| BoardSweep.PlanMeans | toolkit/features/board_sweep.py:143-171 | changes, unchanged and missing count every entry once, and missing are exactly the listed issues that are not on the board; a change names a priority only where there is none |
| BoardSweep.Apply | toolkit/features/board_sweep.py:292-317 | returns exactly the number of non-empty fields and writes each once; nothing is sent when an option is unknown; after a failure part of the writes are on the board |
| BoardSweep.BoardShowsTheUpdate | toolkit/features/board_sweep.py:300-317 | the board after the writes shows each item as its changes say |
| BoardSweep.StaysUpdate | toolkit/features/board_sweep.py:149-159 | what the kept list makes of an item |
| BoardSweep.ParkedUpdate | toolkit/features/board_sweep.py:161-169 | what the parked list adds |
| BoardSweep.WhatASweepMakes | toolkit/features/board_sweep.py:143-171 | what a whole sweep makes of any item, kept, parked, both or neither, status and priority |
| BoardSweep.NothingToDo | toolkit/features/board_sweep.py:143-171 | a plan is empty exactly when every entry on the board is settled |
| BoardSweep.SweepSettlesIffDisjoint | toolkit/features/board_sweep.py:106-108 | applying and planning again leaves nothing if and only if no issue on the board is in both lists |
| BoardSweep.PrioritiesAreKept | toolkit/features/board_sweep.py:155 | no priority that was there is ever overwritten |
| BoardSweep.PartOfASweep | toolkit/features/board_sweep.py:300-317 | without an overlap, whatever part of the writes a failed sweep made, each item's fields read as before or as after the whole sweep |
| BoardSweep.SweepAgainFinishes | toolkit/features/board_sweep.py:143-171 | and from any such board a new plan leaves every item exactly as one whole sweep would have |
| BoardSweep.PartOfASweepKeepsPriorities | toolkit/features/board_sweep.py:155 | no part of a sweep touches a priority that was there, overlap or not |
| AlertSmoke.Observe | toolkit/features/alert_smoke.py:236-260 | one look at the rule or at the deliveries, and whether it reaches the goal |
| AlertSmoke.Await | toolkit/features/alert_smoke.py:311-327 | true only on the first observation that reached the goal, false only when none did and the timeout had passed; it only looks, and it terminates |
| AlertSmoke.Induce | toolkit/features/alert_smoke.py:280-288 | fired exactly if a reading was firing before the time was up, named exactly if the first such reading named the host, notified exactly if a later count was above the baseline |
| AlertSmoke.InduceAndRemove | toolkit/features/alert_smoke.py:278-294 | the apply is followed by the removal on every path, each sent once, and the probe is left behind exactly if it was there or the apply took effect and the removal did not |
| AlertSmoke.Clear | toolkit/features/alert_smoke.py:296-304 | resolved exactly if a reading after a fresh count was `inactive` before the time was up, and its notification exactly if a later count was above that one; counts are what the log showed |
| AlertSmoke.Smoke | toolkit/features/alert_smoke.py:275-308 | the run from the apply on: what each field of the result stands for in the trace |
| AlertSmoke.WhenAResultPasses | toolkit/features/alert_smoke.py:205-308 | a result passes if and only if the trace holds both halves in order |
| AlertSmoke.RunAlertSmoke | toolkit/features/alert_smoke.py:205-308 | each field of a result is what the trace shows, true or false, and it passes if and only if the trace is, in order, baseline, firing, higher count, removal, recount, inactive, higher count, over counts that are never too high and may be too low; whatever raises, after an apply its removal is sent, and exactly when the probe is left behind; it ends with an exception exactly if a call raised one, and with a failed apply exactly if the apply exited with an error, and what did not happen had its time; outside staging nothing is sent |
| AlertSmoke.WhenAHigherCountIsADelivery | toolkit/features/alert_smoke.py:236-242 | a higher count means a delivery in between if and only if the first count was whole: `deliveries` ignores the exit code of `kubectl logs` |
| AlertSmoke.WhatAPassDelivered | toolkit/features/alert_smoke.py:205-308 | a passing run had a delivery after the apply if the baseline was whole, and one after the removal if the recount was |
| AlertSmoke.AFailedRecount | toolkit/features/alert_smoke.py:296-304 | the trace of a pass in which the recount failed and nothing was delivered after the removal |
| CliReference.SpliceKeepsTheFrame | toolkit/features/cli_reference.py:45-51 | everything outside the markers is kept, whatever the block; the README is already up to date exactly when the middle is the block and its blank lines |
| CliReference.SpliceOutcomes | toolkit/features/cli_reference.py:45-50 | the usage error exactly on a wrong number of markers, success exactly on START then END once each, and the unpacking error exactly on the other order |
| CliReference.SpliceTwice | toolkit/features/cli_reference.py:45-51 | after a block without a marker the README splices as the original did, so the same block changes nothing; after one with a marker it is refused |
| Splicing.SplitMeans | toolkit/features/cli_reference.py:49-50 | a split cuts at the first occurrence, and fails exactly when there is none |

## Left out

- Messages, log lines and exit codes; failures are told apart as the code's branches tell them apart.
- Subprocess, HTTP, kubectl, sops, gh and aws calls, JSON and YAML parsing, regular expressions and GraphQL text: what
  they return is a parameter. Title prefixes and content normalization are arbitrary functions.
- SHA-256 and id generation: a digest is injective and an id is never reused.
- The order in which findings, report lines, accounts and rows are sorted and printed: sets and maps stand for them.
- The plaintext values under the merged config and what is derived from them, and `backup_node_credentials.py`'s refusal
  of a write that spans two files: a pair carries its file, and `PairsGoWhereTheyBelong` says it is the right one.
- Nested YAML under a SOPS path: a file is a flat mapping from key path to value.
- TokenMint.ScopeError: the refused bucket's answer is proof only after a listing with the same token, because a token
  R2 has not heard of is denied everything; with no readable bucket nothing is claimed (the callers always pass one).
- FleetRuns.OthersDoNotMatter: is about runs without rotation; what a run with it replaces is said of one that succeeds
  (`RotationRenews`).
- FleetMint.EnsureResticPassword: the new passwords are a parameter, each any nonempty text; that one differs from the
  one it replaces is assumed where it matters.
- TokenMint.MintToken: a write that answers true is taken to have landed; a sleep that is interrupted is a listing that
  raises.
- MintLeftovers.LivePairsStayLive: is not about this pair's own secret path, which holds no token id.
- FleetMint.MintWatcher: the watcher's buckets are listed in the nodes' order, not sorted.
- TokenRevoke.Retire: the reads of the account id and the minter's token that come first; without them nothing is sent.
- RevokeRuns.RetireThenRerun: another actor between the two runs is not modelled.
- In `argo_manager.py`, `check_drift`, and the sync status in the result of `set_revision`.
- WaitStatus.Wait: assumes that each sleep moves the clock by at least the poll interval. A fetch that raises anything
  but StatusFetchError, as for a missing `gh`, ends the wait with that exception.
- In the restore drill, starting containers, health checks and `rows_sql`'s text; the query's answer is any answer that
  reflects the table (`ParseReads`). Row ids that are digits are numbers, so `007` and `7` are one.
- AppDrill.PassMeansComplete: assumes the restore invented no row id and kept the snapshot's sequence entry, and that
  the snapshot's own rows were created no later than `taken`.
- IsolationProbe.Probe: harmlessness assumes that R2 enforces the rules it reports, that a request arrives within the
  safety margin of `now`, and that no stored object has the probe key's name; the verdict assumes none of this.
- In the isolation probe, `probe_fleet`'s restriction to prod.
- In the access review, per-app request bodies, the sign-in of Open WebUI, Grafana's links, the Argo CD policy evaluator
  run in Docker, and the loop over apps, which an `Escaped` review would end; `ReviewBehindIdp` is the gate for one app.
  Emails are compared as they are.
- AccessReview.Reconcile: an app never lists one account twice, so accounts are a map by user.
- In branch protection, a boolean that a GET answers bare, and what a server makes of a body that is not in the write
  shape: for such an object only what holds of every server is promised.
- BoardParts.ApplyParts: the links come from a plan over the same issues, so no link names an unknown one.
- DriftCheck.RunWithCheck: a failure of the restore itself, and directories, links and permissions.
- In the board registries, keys that are different in YAML and equal as integers, which silently merge; which
  of several problems a bad registry is refused for; the project header fields; the queries that fetch items.
- BoardSweep.SweepSettlesIffDisjoint: the board is changed by no one else between the two plans.
- In the alert smoke, reading counts and states out of log text; a raise stands for any exception, an interrupt included.
- In the CLI reference, `_walk`, `_summary` and `render`, whose result is the block.
