# A verified model of the Baidu Cloud CSI driver

The driver answers CSI requests by driving two systems it does not control: a block-storage cloud that works
asynchronously and shows its changes late, and a host with a mount table, a file system and a docker daemon.
Requests are retried, overlap, and may be cut off at any call. This project models the four machines that result
and proves what they guarantee over every run, together with the arithmetic and the parsing they rest on.

**Controller, create** (`CreateProtocol`, `CreateRuns`, `CreateAnswers`, `CreateTiming`, `CreateExamples`,
`CreateServer`, `Timers`, `Retry`, `KeyMutexes`, `VolumeListing`). Callers of CreateVolume race; singleflight runs one flight for each name; the flight calls its handler
again while it answers Aborted and its deadline leaves time. Every call to the cloud, the creating-volume cache or the
lock table is a step of its own, and so is the passing of time; a listing is read page by page while the cloud changes.
The environment is a parameter: whether the cloud deduplicates on the client token, and three threats, namely that the
controller restarts and loses its cache, that a create call succeeds and still reports an error, and that a volume is
readable by its identifier before it is listed. The main results are equivalences. Every run keeps to one volume for
each name if and only if the cloud deduplicates or there is no threat. Every answer has the size that was asked for if
and only if the cloud does not deduplicate or there is no threat, because the handler never compares sizes after the
create call (controller.go:326-364). So deduplication trades one guarantee for the other, and only the absence of all
threats gives both. In every environment the volume returned has the name that was asked for and is out of its
creating state, and the lock is never contended. Every answer has its reason in one step of the flight; a volume still
being created keeps the flight going, and once the cloud has finished it in time the flight ends with it.

**Controller, attach and expand** (`AttachProtocol`, `AttachAnswers`, `AttachTiming`, `AttachExamples`, `AttachServer`,
`ExpandProtocol`, `Expansion`, `Capacity`).
Publish, unpublish and expand interleave, each split into reading the volume and acting on what was read. A volume
never has two attachments although the cloud may accept any Attach call, and attachments balance against removals. On
the protocol's own clock, if the cloud carries out an Attach in time for one more retry, the flight succeeds, with
exactly one Attach, or none where the volume was attached or attaching before. Racing expand calls always grow the
volume if and only if they come one at a time and their limits are not negative. The size checks, written three times in the program, are proved to fit together, with the
exact conditions under which they do not (negative limits, byte counts near 2^63, a limit below the default size).

**CDS node** (`MountTable`, `NodeServer`, `NodeLifecycle`, `StageProtocol`, `PublishProtocol`, `DevPath`). Stage, publish, unpublish and
unstage over a mount table in which mounts stack. Each handler method is proved equal to a function of the host, the
request and the calls that fail; about those functions it is proved that operations are local, that retries drain a
stack in exactly max(1, k) calls, and that a whole life cycle restores the mount table entry for entry. Racing stage
calls mount the device once if and only if they carry the same request text and the oldest mount on the path is not
foreign; racing publish calls, which take no lock, leave as many mounts as there are calls at once, and no more.

**BOS node** (`BosProtocol`, `BosAnswers`, `BosServer`). Containers, target paths and credentials under requests that may stop at any
call. A container always has its path and credentials, a successful unpublish leaves nothing, and publish recovers
within two calls.

The classes keep the program's form: fields, the same calls in the same order, the same error codes. Those that run
against a concurrent world carry a ghost log of protocol steps; their contracts say that what a method did, with
anything else going on in between, is a run of the protocol whose properties are proved as lemmas, that the answer
returned is the one the flight stands at, and that the handler was called again only as the deadline allows. The
controller's one struct appears as a class `ControllerServer` in `CreateServer`, one in `AttachServer` and as
`ExpandService` in `Expansion`, each with the fields that its handlers touch. Code that the program obtains from
libraries appears as a small contract. The cloud's and the interference methods have contracts that leave the choice
to the environment; callers rely on the contracts only.

`Status` and `Volumes` hold shared data types. `Retry` specifies the retry loop by itself, as a function of what its
handler answers; `Timers` holds the same rules as steps, for protocols in which the handler's answers depend on what
others do. `Retry.HistoryKeepsTimers` ties the two together. `dafny verify dfyconfig.toml` checks the whole project.

## Model

| member | source | states |
|---|---|---|
| CreateRuns.OnePerNameExactlyWhen | pkg/driver/cds/controller.go:159-365 | Over all runs of any number of interleaved calls, retries, delays and threats: no two volumes of one name, if and only if the cloud deduplicates on the client token or none of the three threats (restarts, lost replies, volumes readable before they are listed) is present |
| CreateRuns.DuplicatingRun | pkg/driver/cds/controller.go:314-326 | Without deduplication, each of the three threats alone has a concrete run that ends with two volumes of one name |
| CreateRuns.CreatePass | pkg/driver/cds/controller.go:172-326 | One pass of the handler from a state that shows nothing of the name reaches the create call, and the cloud's reply decides what comes of it |
| CreateRuns.SizesTrueExactlyWhen | pkg/driver/cds/controller.go:261-364 | Over all runs: every volume returned has the size that the leader's range stands for, if and only if the cloud does not deduplicate or no threat is present |
| CreateRuns.MissizedRun | pkg/driver/cds/controller.go:326-364 | With deduplication and a threat, a concrete run answers a request for 200 GB with the 100 GB volume that an earlier request made: sizes are not compared after the create call |
| CreateRuns.BothExactlyWhenReliable | pkg/driver/cds/controller.go:159-365 | One volume for each name and true sizes together, if and only if no threat is present: deduplication gives the one and takes the other |
| CreateRuns.ForgottenVolume | pkg/driver/cds/controller.go:314-343 | Each threat alone leads to a volume that is not listed and that the controller no longer remembers |
| CreateRuns.AnswersOnceInSight | pkg/driver/cds/controller.go:246-292 | Progress: once the only volume of a name is listed and out of its creating state, a call of the handler whose list call does not fail answers with it, or with AlreadyExists when the size differs, whatever is interleaved |
| CreateAnswers.AnswerHasReason | pkg/driver/cds/controller.go:179-365 | In every run every answer goes back to one step of the flight and to what cloud and cache held then: a refused request; a listing that failed, showed several volumes, one of another size, one still being created, or the one returned; a name in the cache; a create call refused or not reported; a reading back that failed or came too early. After that step only the deferred calls follow, and a flight that has seen a volume leaves its name out of the cache |
| CreateAnswers.RunVetsRequests | pkg/driver/cds/controller.go:189-244 | In every run a request that does not pass the checks is answered InvalidArgument before anything is asked of the cloud |
| CreateTiming.HiddenAnswersAborted | pkg/driver/cds/controller.go:246-350 | As long as the volume asked for is still being created, not readable after the create call, or unlisted with its name in the cache, every call of the handler is answered Aborted, so that the flight goes on, whatever is interleaved |
| CreateTiming.CreateSucceedsInTime | pkg/driver/cds/controller.go:139-350 | Over every run of a flight in which the cloud has the volume listed, readable and out of its creating state within D of the first call's end and no call takes longer than L: if start + L + D + L + 2 s is not after the wait deadline, the flight can end only with the only volume of its name, of the size asked for and out of its creating state, and has that answer by start + 3L + D + 2 s |
| CreateTiming.StepKeepsUnderway | pkg/driver/cds/controller.go:246-350 | Every step, of the flight or of others, keeps what the flight has done and by when: no volume yet and the first call still running, or the one volume, and an Aborted answer only of a call that began before the cloud was due |
| CreateExamples.ServedCreate | pkg/driver/cds/controller.go:139-350 | A concrete run that meets all assumptions: create, read too early, sleep two seconds, find the volume finished |
| CreateProtocol.TokenInjective | pkg/driver/cds/controller.go:294-311 | For one cluster id, empty or not, equal client tokens mean equal volume names |
| CreateProtocol.TokensKeepClustersApart | pkg/driver/cds/controller.go:294-311 | For two clusters whose identifiers are not empty and hold no dash, equal client tokens mean the same cluster and the same name |
| CreateProtocol.TokenWithoutCluster | pkg/driver/cds/controller.go:300 | Without a cluster the token is the name |
| CreateProtocol.StepKeepsInv | pkg/driver/cds/controller.go:172-365 | Every step keeps: created implies listed by name, or in the cache, or about to be stored there; held keys are those of flights inside the handler; what each phase knows |
| CreateProtocol.StepKeepsTracked | pkg/driver/cds/controller.go:247-266 | Where no threat is present, a volume not listed yet stays in the cache or on the way there, since the deferred delete runs only after the name has been seen listed |
| CreateProtocol.StepLeavesOthers | pkg/driver/cds/controller.go:159-170 | Only the flight of a name makes volumes of that name or touches its cache entry, and nothing that a flight has read about a volume is undone |
| CreateProtocol.RunKeepsInv | pkg/driver/cds/controller.go:159-365 | The invariant holds at the end of every run, in every environment |
| CreateProtocol.LockIsFree | pkg/driver/cds/controller.go:179-187 | The lock key of a flight outside the handler is not held: equal request texts mean equal names and so the same flight |
| CreateProtocol.RunKeepsLocks | pkg/driver/cds/controller.go:179-187 | In every run TryLock inside createVolume succeeds, and no key is held while no flight is inside the handler |
| CreateProtocol.RunCallsWithinBudget | pkg/driver/cds/controller.go:131-153 | In every run a flight has called its handler at least once, at most 1 + max(0, floor((wait deadline - start) / 2 s)) times, and not after the wait deadline but for the first time |
| CreateProtocol.RunAnswersTruthfully | pkg/driver/cds/controller.go:261-292 | In every environment a volume returned has the leader's name, is out of its creating state and carries its own capacity; its size is the one asked for under the condition that SizesTrueExactlyWhen proves exact; several volumes of one name are never listed where one per name is guaranteed |
| CreateProtocol.FollowerServedExactlyWhen | pkg/driver/cds/controller.go:164-169 | A singleflight follower gets the leader's answer, and wherever sizes are true it is true of the follower if and only if both capacity ranges stand for the same size |
| CreateServer.VolumeService.GetVolumeByName | pkg/cloud/cds.go:158-195 | The reading the handler relies on, over a listing whose pages come in while the cloud changes: nothing, the only volume found, several, or a failure; what is found lies between what was listed at the first page and at the last |
| CreateServer.VolumeService.CreateVolume | pkg/cloud/cds.go:108-142 | The cloud's contract for a create call: at most one volume is made, a known token names the volume made for it when the cloud deduplicates, and nothing else changes |
| CreateServer.ControllerServer.CreateVolume | pkg/driver/cds/controller.go:159-170 | The call is one flight of the protocol from Enter to Leave, returns the answer it ends with, and is truthful; retries begin two seconds apart at the least and three seconds before the request's time is up at the latest, and the flight gives up on an aborted call only when the next would begin later; an empty name changes nothing |
| CreateServer.ControllerServer.Fly | pkg/driver/cds/controller.go:139-155 | The loop ends at an answer other than Aborted or when no retry fits before the wait deadline, which it takes from the request's deadline, and the flight then may leave |
| CreateServer.ControllerServer.HandleCreateVolume | pkg/driver/cds/controller.go:172-365 | One handler call takes the protocol's steps from TryLock to Unlock and returns the outcome they lead to |
| CreateServer.ControllerServer.Find | pkg/driver/cds/controller.go:247-292 | Listing is two steps of the protocol with interference between, and leads to the cache or to the deferred calls |
| CreateServer.ControllerServer.FindOrCreate | pkg/driver/cds/controller.go:246-326 | From checked arguments to the deferred calls by steps of the protocol only: listing, cache, create call, store, read back, each at a moment of its own with interference before it and none skipped or reordered |
| CreateServer.ControllerServer.RunDeferred | pkg/driver/cds/controller.go:184-187 | The deferred calls are the protocol's steps in its order (cache entry before lock), keep the outcome, and leave the flight outside the handler |
| CreateServer.ControllerServer.FetchByID | pkg/driver/cds/controller.go:328-352 | Reading back by id is the protocol's step from Cached to its deferred calls, whatever the cloud answers; the volume made is there and has the name, in every environment |
| Timers.WaitsUntil | pkg/driver/cds/controller.go:124-133 | The loop waits until three seconds before the request's time is up, which is its deadline or else a minute from its beginning |
| Timers.PacedIsPunctual | pkg/driver/cds/controller.go:138-155 | A flight that keeps the loop's rules and may leave has begun every retry three seconds before its time is up, two seconds apart, and an aborted one leaves no room for another |
| Timers.PacedBudget | pkg/driver/cds/controller.go:131-153 | A timer that keeps the loop's rules has counted at least one call and at most one more for every two seconds before the wait deadline |
| Timers.Select | pkg/driver/cds/controller.go:148-153 | The select statement: another call two seconds after the last if that can come before the wait deadline, the end at the deadline if that can, either when both are ready at once |
| Retry.RetryOnAborted | pkg/driver/cds/controller.go:121-157 | The loop makes exactly the calls of the specified history and returns the answer of its last call; no retry begins later than three seconds before the request's time is up, and the answer is Aborted only when the next would |
| Retry.CallsAreTheHandlers | pkg/driver/cds/controller.go:140-141 | The j-th call of the history is the handler's j-th, with its answer and duration |
| Retry.RetriesOnlyAborted | pkg/driver/cds/controller.go:140-153 | Only aborted calls are followed by another, two seconds after they end and not after the wait deadline; a last answer that is Aborted means no time was left |
| Retry.RetriesBeforeTimeUp | pkg/driver/cds/controller.go:124-153 | For every handler and every deadline, or none: each retry begins two seconds after the call before it ended and at least three seconds before the request's time is up, and the loop gives up on an aborted call only when the next would begin later |
| Retry.HistoryKeepsTimers | pkg/driver/cds/controller.go:138-155 | The loop as a function of its handler keeps the rules by which the protocols time their flights: it is paced after every call, retries only when they allow it and ends only when they allow it |
| Retry.CallBudget | pkg/driver/cds/controller.go:131-153 | At least one call and at most 1 + max(0, floor((wait deadline - start) / 2 s)) |
| Retry.AnswersOnceReady | pkg/driver/cds/controller.go:139-155 | A handler that aborts until some time and then answers is answered from, if one retry still fits before the deadline |
| KeyMutexes.KeyMutex.TryLock | pkg/util/keymutex.go:38-48 | Succeeds if and only if the key was free, and the key is held afterwards; no other key changes |
| KeyMutexes.KeyMutex.Unlock | pkg/util/keymutex.go:51-56 | Frees the key and no other |
| VolumeListing.GetVolumeByName | pkg/cloud/cds.go:158-195 | For every way of cutting the listing into pages the verdict is that of filtering the unpaged listing, a page that fails to come is an error, and the loop ends |
| VolumeListing.CollectByName | pkg/cloud/cds.go:161-181 | The paging loop gathers exactly the matches of the whole listing, in its order |
| VolumeListing.JudgeMeans | pkg/cloud/cds.go:184-194 | Not found, the one volume, and the multiple-volumes error mean that none, exactly one, or at least two listed entries have the name |
| VolumeListing.PagesShowBetween | pkg/cloud/cds.go:161-181 | When volumes are only added while pages come in, the pages show all that was listed at the first and nothing that is not listed at the last |
| Capacity.RoundUpExactlyWhen | pkg/util/util.go:42-52 | Over int64, rounding a non-negative byte count up is the mathematical ceiling if and only if it is at most 2^63 - 2^30; beyond that the result is negative |
| Capacity.RoundUpNegative | pkg/util/util.go:42-52 | A negative byte count rounds to at most zero and never below itself |
| Capacity.BytesFit | pkg/util/util.go:46-48 | The byte count of a size below 2^33 GB does not wrap around |
| Capacity.ReturnedSizeMeetsExactlyWhen | pkg/driver/cds/controller.go:679-717 | A size that getVolumeSizeGB returns for a non-negative requirement meets the range if and only if the limit is non-negative and the rounding does not wrap; a negative requirement is harmless under a non-negative limit |
| Capacity.ReturnedSizeCanMiss | pkg/driver/cds/controller.go:687-716 | Concrete ranges whose returned size misses the range: a negative limit, and a requirement of 2^63 - 1 |
| Capacity.ReturnedSizeIsLeast | pkg/driver/cds/controller.go:698-702 | For a positive requirement no smaller whole-GB size meets the range |
| Capacity.InvalidExactlyWhen | pkg/driver/cds/controller.go:687-701 | For every int64 requirement and limit, getVolumeSizeGB fails if and only if the limit is not negative and: no whole-GB size meets a requirement that can be rounded; or one that cannot exceeds a positive limit; or nothing is required and the limit is below the default size |
| Capacity.NoSizeBeyond | pkg/driver/cds/controller.go:705-717 | A requirement above 2^63 - 2^30 is met by no whole-GB size |
| Capacity.NodeAcceptsExactlyWhen | pkg/driver/cds/node.go:396-406 | The node accepts every device where no range is given, and otherwise exactly those not smaller than required and, where the limit is positive, not larger than it |
| Capacity.ChecksAgreeExactlyWhen | pkg/driver/cds/node.go:397-406 | On a whole-GB device the node's check and the controller's agree if and only if the limit is non-negative or the device is too small anyway |
| Expansion.ExpandService.ControllerExpandVolume | pkg/driver/cds/controller.go:562-642 | Which outcome, and whether Resize is called and with which size, for every volume, range, mode, failed reading and answer of the cloud; nothing else changes |
| Expansion.ResizeExactlyWhen | pkg/driver/cds/controller.go:602-634 | For every requirement and every non-negative limit, Resize is called if and only if the volume is smaller than required, some whole-GB size fits the range and the status allows it; the new size is the least that fits and strictly larger |
| Expansion.AnswersExactlyWhen | pkg/driver/cds/controller.go:592-641 | Each answer with its exact condition: Aborted while scaling, success in range with the size in bytes, FailedPrecondition for a volume that is too small and could grow but for its status, InvalidArgument for the rest |
| Expansion.ResizeFitsExactlyWhen | pkg/driver/cds/controller.go:602-634 | Over every int64 range: a size that Resize is called with is in range if and only if the limit is not negative, and larger than the volume's if and only if the volume is smaller than the requirement, or than the default where nothing is required |
| Expansion.NegativeLimitResizesExactlyWhen | pkg/driver/cds/controller.go:602-634 | With a requirement and a negative limit, Resize is called if and only if the status allows it, the requirement can be rounded, and the volume is not larger than it is when rounded up |
| Expansion.NegativeLimitResizes | pkg/driver/cds/controller.go:602-634 | An instance of both: with a negative limit Resize is called for 5 GB, which is not in range and is the size the volume has |
| Expansion.ExpansionConverges | pkg/driver/cds/controller.go:592-641 | After scaling to the size asked for, the same request succeeds with an in-range capacity and does not resize, and the node accepts the device |
| Expansion.ControllerSuccessFitsNode | pkg/driver/cds/node.go:397-406 | Whenever the controller reports success the node does not answer OutOfRange for a device of that size and the same range, whatever the range |
| Expansion.RunsOnlyGrow | pkg/driver/cds/controller.go:616-641 | Over any sequence of requests a volume never shrinks, and every accepted resize grows it |
| Expansion.SameRequestResizesOnce | pkg/driver/cds/controller.go:592-641 | One request repeated any number of times, while the volume scales, settles and changes status, resizes at most once, not counting calls that the cloud refuses |
| Volumes.FindAttachment | pkg/driver/cds/controller.go:757-764 | The first attachment to the node, with none to it before, or none exactly when no attachment is to the node |
| AttachProtocol.StepKeepsInv | pkg/driver/cds/controller.go:411-560 | Every step of publish, unpublish, expand and the cloud keeps at most one attachment, the balance of attachments and removals, and what each flight knows |
| AttachProtocol.StepEffect | pkg/driver/cds/controller.go:479-487 | Only a volume's own publish flight can add an attachment to it |
| AttachProtocol.RunKeepsInv | pkg/driver/cds/controller.go:398-560 | The invariant holds at the end of every run |
| AttachProtocol.AtMostOneAttachment | pkg/driver/cds/controller.go:453-487 | In every interleaving a volume has at most one attachment, and accepted attaches minus removals is exactly the number it has |
| AttachProtocol.PublishFlightAttachesOnce | pkg/driver/cds/controller.go:404-487 | A publish flight calls Attach at most once more than attachments are removed meanwhile, and the device and serial it returns are those of the only attachment, to the leader's node, unless removed after the reading |
| AttachAnswers.PublishHasReason | pkg/driver/cds/controller.go:430-487 | In every run every answer of a publish flight, and its going on to attach, goes back to one step and to what the cloud held then, as equivalences: Available means attach, ATTACHING means Aborted, IN USE with the node means success with its first attachment, IN USE without it FailedPrecondition, any other status Unavailable; and what missing nodes and volumes, failures and the Attach call mean |
| AttachAnswers.PublishedWasRead | pkg/driver/cds/controller.go:453-465 | In every run a flight that reports success has read the volume IN USE with the attachment to its node, and has done nothing since |
| AttachProtocol.FollowerServedExactlyWhen | pkg/driver/cds/controller.go:403-408 | While the attachment stands, the leader's answer is true of a follower if and only if the follower named the leader's node |
| AttachProtocol.UnpublishFlightDetachesOnce | pkg/driver/cds/controller.go:496-559 | An unpublish flight calls Detach at most once but for detachments the cloud gives up and new attachments, and success means not attached to the node, unless attached after the reading |
| AttachAnswers.UnpublishHasReason | pkg/driver/cds/controller.go:518-559 | The same for unpublish: not attached means success, attached and DETACHING means Aborted, attached otherwise means Detach; a missing volume or node is success; failures are Internal |
| AttachAnswers.SeenWasRead | pkg/driver/cds/controller.go:518-531 | The volume that an unpublish flight decides about is the one it has read |
| AttachProtocol.UnpublishFollowerServedExactlyWhen | pkg/driver/cds/controller.go:495-500 | Unpublish flights are grouped by volume alone: over all runs, a leader's success is true of a follower if and only if the follower named the leader's node |
| AttachProtocol.UnpublishElsewhere | pkg/driver/cds/controller.go:542-545 | For any other node, a concrete run in which the leader succeeds while the volume is attached to that node |
| AttachProtocol.ResizeAsksForMore | pkg/driver/cds/controller.go:602-634 | With everything interleaved, a Resize about to be issued asks for a size that is in range and larger than the one its call has read |
| AttachProtocol.OvertakenRun | pkg/driver/cds/controller.go:602-634 | A concrete run of two overlapping requests, from entry to reading to the larger one's being carried out, in which a Resize to 20 GB can still be issued for a volume of 30 GB |
| ExpandProtocol.AlwaysGrowsExactlyWhen | pkg/driver/cds/controller.go:581-641 | In every run of racing expand calls, which nothing groups, and of a cloud that grows a volume only by an accepted Resize: every Resize asks for more than the volume has, if and only if calls come one at a time and limits are not negative, or no call comes |
| ExpandProtocol.RunKeepsInv | pkg/driver/cds/controller.go:592-641 | With one call at a time and no negative limits, in every run a call about to resize finds the volume as it read it, with nothing scaling, and asks for more |
| ExpandProtocol.OvertakenRun | pkg/driver/cds/controller.go:602-634 | Two requests read the volume at 10 GB; the larger one takes it to 30 GB, and the smaller one is about to resize it to 20 |
| ExpandProtocol.StandstillRun | pkg/driver/cds/controller.go:602-634 | A single request with a negative limit is about to resize the volume to the size it has |
| AttachTiming.PublishSucceedsInTime | pkg/driver/cds/controller.go:139-154 | Over every run of a publish flight of the protocol in which the cloud carries out an Attach within D and no call takes longer than L: if start + L + D + L + 2 s is not after the wait deadline, the flight can end only with the device and serial of the only attachment, to its node, and has that answer by start + 3L + D + 2 s; it has issued exactly one Attach, or none when the volume was attached or attaching to the node when it began |
| AttachTiming.UnpublishSucceedsInTime | pkg/driver/cds/controller.go:542-559 | The dual: it can end only with success, with the volume no longer attached to the node, after exactly one Detach, or none when the volume was detached or detaching when it began |
| AttachTiming.StepKeepsPublishUnderway | pkg/driver/cds/controller.go:453-487 | Every step, of the flight or of others, keeps what the flight has done and by when: no attachment yet and the first call still running, or the one attachment and every later call begun within a retry of its completion |
| AttachTiming.StepKeepsUnpublishUnderway | pkg/driver/cds/controller.go:542-559 | The dual: the volume still held and the first call running, or detaching or detached and every later call begun in time |
| AttachExamples.ServedPublish | pkg/driver/cds/controller.go:139-154 | A concrete run that meets all assumptions for publish: attach, sleep two seconds, find the volume attached |
| AttachExamples.ServedUnpublish | pkg/driver/cds/controller.go:139-154 | The same for unpublish: detach, sleep two seconds, find the volume detached |
| AttachServer.ControllerServer.ControllerPublishVolume | pkg/driver/cds/controller.go:398-487 | The call is one publish flight of the protocol with its deadline, returns its last answer, retries within the request's time as the loop does, and its success and its number of Attach calls are as the protocol promises |
| AttachServer.ControllerServer.FlyPublish | pkg/driver/cds/controller.go:139-155 | The retry loop of a publish flight, ended by an answer other than Aborted or by the wait deadline taken from the request's |
| AttachServer.ControllerServer.LookUpNode | pkg/driver/cds/controller.go:432-441 | The node is looked up once; a missing node is NotFound, a failure Internal |
| AttachServer.ControllerServer.ReadForAttach | pkg/driver/cds/controller.go:443-477 | The volume is read once, and the next phase is what that reading means, status by status; nothing else of the flight changes, so no Attach is issued |
| AttachServer.ControllerServer.AttachVolume | pkg/driver/cds/controller.go:480-486 | Attach is issued once, for a volume without attachments; the answer is Aborted or Internal, Aborted only if it was accepted, and the volume then has no attachment or just the one to the node |
| AttachServer.ControllerServer.ControllerUnpublishVolume | pkg/driver/cds/controller.go:490-560 | The same for one unpublish flight |
| AttachServer.ControllerServer.CheckNode | pkg/driver/cds/controller.go:532-550 | The node is looked up once, and the next phase is what the volume as read earlier means; a missing node is success, and no Detach is issued |
| AttachServer.ControllerServer.DetachVolume | pkg/driver/cds/controller.go:552-559 | Detach is issued once; the answer is Aborted or Internal, and Aborted means that the volume is DETACHING |
| DevPath.GetDevPath | pkg/driver/cds/mount.go:92-120 | For every listing in which no serial appears twice, the answer is a device exactly when the device has the serial and an error exactly when none has it; an empty serial or a failed command is an error; on any output it is what the search by lines finds |
| DevPath.LookUpFindsFirst | pkg/driver/cds/mount.go:92-120 | On whatever the command printed, the lookup answers with a device exactly when the first entry with the serial is that device's, and with an error when there is none or it is another file's |
| DevPath.ParseInvertsPrint | pkg/driver/cds/mount.go:84-120 | For every listing in which no serial appears twice, with lines of other shapes in between, the lookup answers with a device if and only if that device has the serial, and with an error if and only if none has |
| DevPath.SplitPrint | pkg/driver/cds/mount.go:104-105 | Splitting the printed listing at line ends gives back its lines |
| DevPath.SearchPrinted | pkg/driver/cds/mount.go:105-119 | Searching the lines finds what searching the entries finds |
| MountTable.AtPop | pkg/driver/cds/node.go:273-278 | Unmounting takes the newest mount off its own path's stack and leaves every other path's stack alone |
| NodeServer.NodeServer.NodeStageVolume | pkg/driver/cds/node.go:97-189 | Host and outcome after a stage call, for every request, lock state, listing and choice of failing calls; the lock is given back on every way out |
| NodeServer.NodeServer.NodePublishVolume | pkg/driver/cds/node.go:236-250 | Host and outcome after a publish call of either kind |
| NodeServer.NodeServer.PublishBlockVolume | pkg/driver/cds/node.go:420-488 | The block case: directory and file are made, then the device is bound unless something is mounted |
| NodeServer.NodeServer.PublishMountVolume | pkg/driver/cds/node.go:490-548 | The mount case: what is on top of the staging path is bound to the target unless something is mounted |
| NodeServer.NodeServer.NodeUnpublishVolume | pkg/driver/cds/node.go:252-292 | Host and outcome after an unpublish call |
| NodeServer.NodeServer.NodeUnstageVolume | pkg/driver/cds/node.go:191-234 | Host and outcome after an unstage call, which decides by references to the device |
| NodeServer.NodeServer.NodeExpandVolume | pkg/driver/cds/node.go:365-418 | The file system grows to its device exactly when the request is well formed, nothing fails and the device is in range |
| NodeLifecycle.OperationIsLocal | pkg/driver/cds/node.go:97-292 | Whatever fails, an operation on a target leaves the mounts of every other path as they are, moves the target's stack by at most one mount, creates at most the target and directories above it, removes at most the target, and keeps the host sound |
| NodeLifecycle.StageMounts | pkg/driver/cds/node.go:158-188 | Whatever fails, success of staging leaves the device on the path, mounted by this call unless it was the oldest mount there; failure is Internal and mounts nothing; a call in which nothing fails succeeds |
| NodeLifecycle.PublishMountBinds | pkg/driver/cds/node.go:505-547 | Whatever fails, on missing and on existing targets, success leaves something mounted on the target: what was there, or else the device on top of the staging path, one entry; failure is Internal and mounts nothing; a call in which nothing fails succeeds |
| NodeLifecycle.PublishBlockBinds | pkg/driver/cds/node.go:442-487 | The same for a block volume, whose device node is bound to the target file |
| NodeLifecycle.UnstageIsUnpublish | pkg/driver/cds/node.go:213-233 | The two ways of asking whether something is mounted, by references and by device, agree on every sound host, under every failure |
| NodeLifecycle.UnpublishOnce | pkg/driver/cds/node.go:263-291 | One call without failures takes one mount off and succeeds if and only if the path is missing, or nothing lies below it and at most one mount was on it |
| NodeLifecycle.DrainsExactly | pkg/driver/cds/node.go:263-291 | With k mounts stacked, call n leaves max(k - n, 0) of them and succeeds if and only if n is at least max(1, k) and nothing lies below the path (or the path is gone) |
| NodeLifecycle.SuccessMeansGone | pkg/driver/cds/node.go:263-291 | Success means the path is gone, carries no mount, and no call that was made has failed; any failure is Internal and leaves the paths alone |
| NodeLifecycle.PublishTwice | pkg/driver/cds/node.go:511-547 | Once publishing has succeeded a further call changes nothing and succeeds unless one of its two checks fails |
| NodeLifecycle.PublishBlockTwice | pkg/driver/cds/node.go:462-470 | Once a block publish has succeeded a further call changes nothing and succeeds unless one of its two checks fails |
| NodeLifecycle.StageTwiceExactlyWhen | pkg/driver/cds/node.go:172-188 | A second stage call leaves the host alone if and only if the path had no mount, or had the device as its oldest mount, before the first |
| NodeLifecycle.PublishAllFresh | pkg/driver/cds/node.go:511-547 | Publishing to any number of fresh targets puts one mount of the staged device on each |
| NodeLifecycle.UnpublishAllSingle | pkg/driver/cds/node.go:263-291 | Unpublishing targets with one mount each removes exactly their entries and paths, in any order |
| NodeLifecycle.LifeCycleRestores | pkg/driver/cds/node.go:97-292 | Stage, publishes to fresh targets, their unpublishes in any order, unstage: every call succeeds, the mount table is what it was entry for entry, and the paths are what they were but for parent directories |
| StageProtocol.StepKeepsLocks | pkg/util/keymutex.go:38-56 | The keys held are exactly those of the threads in the critical section, which share no key |
| StageProtocol.RunKeepsInv | pkg/driver/cds/node.go:143-188 | From any mounts on the path, in every run of racing stage calls: held keys match the threads in the critical section, and in a safe environment the device is on the path at most once |
| StageProtocol.OneMountExactlyWhen | pkg/driver/cds/node.go:143-188 | However stage calls race with each other and with unmounting, from any mounts on the path: the device is on it at most once if and only if it is so at the start, and either no call arrives or all carry the same request text and the oldest mount, if any, is the device |
| StageProtocol.DoubleMount | pkg/driver/cds/node.go:172-184 | A concrete run in which two different request texts mount the device twice |
| StageProtocol.MountsAgain | pkg/driver/cds/node.go:172-184 | Two identical calls, one after the other, mount the device twice on a path whose oldest mount is foreign |
| PublishProtocol.MountsBoundedExactlyWhen | pkg/driver/cds/node.go:524-547 | Publish calls race without a lock: no run leaves more than n mounts on a target if and only if there are no more than n at the start and no more than n calls are at work at once |
| PublishProtocol.RunKeepsInv | pkg/driver/cds/node.go:524-547 | In every run, mounts on the target and mounts still to come together do not exceed the larger of the mounts at the start and the number of calls at once |
| PublishProtocol.BoundRun | pkg/driver/cds/node.go:524-547 | A concrete run, for any number of calls at once, in which all find nothing mounted and all bind |
| BosProtocol.NamesAreApart | pkg/driver/bos/mount.go:347-354 | With a collision-free digest, container names and credentials directories keep targets apart |
| BosProtocol.CallKeepsConsistent | pkg/driver/bos/node.go:158-212 | Every call of either handler keeps: a container has its path, credentials directory and, if it reads one, credentials file |
| BosProtocol.CallEstablishesNext | pkg/driver/bos/node.go:227-266 | After each call the handler knows what its next phase relies on |
| BosProtocol.CallLeavesOthers | pkg/driver/bos/mount.go:347-354 | A call for one target leaves everything of every other target alone |
| BosProtocol.StepKeepsInv | pkg/driver/bos/node.go:107-269 | Every call, failure, crash and move of docker keeps the invariant |
| BosProtocol.RunKeepsInv | pkg/driver/bos/node.go:107-269 | The invariant holds at the end of every run from a consistent host |
| BosProtocol.CrashConsistency | pkg/driver/bos/node.go:158-266 | After any requests on any targets, stopped anywhere: containers have their paths and credentials, no target has two containers, and a completed unpublish has left no container, mount, path or credentials |
| BosProtocol.PublishedWasSeenReady | pkg/driver/bos/mount.go:76-143 | In every run, a handler that reports a publish as done began with a publish request and was brought there, since that beginning, by an inspection at which the container was running and healthy, after which it did nothing more |
| BosAnswers.ContainerWasMade | pkg/driver/bos/mount.go:189-279 | In every run a container that is there was there from the start, or was made by a publish handler of its target, and reads a credentials file exactly when that request had credentials |
| BosAnswers.FileWasWritten | pkg/driver/bos/node.go:186-196 | In every run a credentials file that is there was there from the start, or was written for a request with credentials |
| BosAnswers.HandlerHasReason | pkg/driver/bos/mount.go:99-126 | In every run a handler about to remove its container has just seen it exited or dead, one about to start it has just seen it created or paused, and one that waits has started it or seen it running but not healthy, or in an unknown status |
| BosAnswers.PublishOnceExactlyWhen | pkg/driver/bos/mount.go:76-143 | From any state of the container one publish call succeeds if and only if it is not exited, dead, restarting or being removed; an exited or dead one is gone afterwards, a restarting one or one being removed is left alone |
| BosProtocol.PublishWithinTwoCalls | pkg/driver/bos/mount.go:76-143 | From a container absent, created, running, exited or dead, publish succeeds within two calls, and the first fails if and only if the container was exited or dead |
| BosProtocol.UnpublishCleansExactlyWhen | pkg/driver/bos/mount.go:146-187 | From any consistent host one call cleans up if and only if the path is gone already, or the container is not paused, restarting or being removed and at most one mount is in the way |
| BosProtocol.DriveFindContainer | pkg/driver/bos/mount.go:146-187 | The part of unpublishing that deals with a container: it cleans up if and only if the container is not paused, restarting or being removed and at most one mount is on the target |
| BosServer.NodeServer.WaitUntilReady | pkg/driver/bos/mount.go:314-333 | Waiting succeeds only after an inspection that showed the container running and healthy |
| BosServer.NodeServer.InspectAndAct | pkg/driver/bos/mount.go:80-140 | One inspection leads to the protocol's next phases for the container's status: published only after the container was seen ready, or given up, or, after the first inspection, creation |
| BosServer.NodeServer.Act | pkg/driver/bos/node.go:166-266 | A call to the file system takes its effect as the protocol's next step, or fails without one and ends the handler |
| BosServer.NodeServer.Command | pkg/driver/bos/mount.go:80-168 | A call to docker that creates, starts, stops or removes a container, likewise |
| BosServer.NodeServer.MountByBOSFS | pkg/driver/bos/mount.go:76-143 | The mount is a run of the protocol from the inspection on; success means the container was seen ready during the call |
| BosServer.NodeServer.UnmountFromBOSFS | pkg/driver/bos/mount.go:146-187 | Container, then mount: the protocol's steps from finding the container to removing the path, or a call at which it gave up |
| BosServer.NodeServer.NodePublishVolume | pkg/driver/bos/node.go:107-218 | The call is one handler of the protocol, ended by success after the container was seen ready, or by a call that failed; bad requests have no effect |
| BosServer.NodeServer.NodeUnpublishVolume | pkg/driver/bos/node.go:221-269 | The call is one handler of the protocol; success leaves nothing of the target, whatever earlier requests had left there |

## Left out

Assumptions about the environment:

- The cloud, for creation: nothing is deleted or hidden again; one controller process is active. Volumes that were there before are listed and carry no token.
- The cloud, for attachments: readings are current, AVAILABLE means no attachments, an attachment is listed from the moment Attach is accepted, and attachments come only from this driver's Attach calls.
- A file system or docker call that fails has no effect. A create, Attach, Detach or Resize call may take effect and still report an error, the first of them where lost replies are allowed.
- `String()` of a request is an injective function of the request, and MD5 an injective function of the target.
- The mount library is not part of the repository: the device of a path is that of the oldest entry at the path, references are counted over the whole table, unmounting pops one entry, and a bind mount shows the device on top of its source (`devtmpfs` for a device node).
- The docker daemon is not part of the repository: container names are unique, a container that is up is removed only by force, one that is being removed is not removed again, and a running container may mount its target at any moment.
- One BOS request at a time for each target; target paths and credentials directories do not overlap. A path that answers "transport endpoint is not connected" counts as existing.
- Timers in the retry loop are exact, and only the choice between two timers ready at the same instant is open.

Not modelled:

- CreateServer.VolumeService.GetVolumeByName: does not name the pages one by one, because `VolumeListing` does; here a listing is what lies between its first and its last page.
- CreateRuns.AnswersOnceInSight: does not say when the volume comes into sight, because `CreateTiming` does.
- CreateTiming.CreateSucceedsInTime: does not cover environments with one of the three threats, in which the volume found may be of another size or not the only one, or a volume of the name that has another size from the start, which is answered AlreadyExists (`CreateRuns.AnswersOnceInSight`).
- NodeServer.NodeServer.NodeStageVolume: does not model other requests running in between, because `StageProtocol` does; the same handler is there split into its calls, and for publish calls `PublishProtocol` does the same.
- Expansion.ExpandService.ControllerExpandVolume: does not model other requests between reading and resizing, because `ExpandProtocol` and `AttachProtocol` do, with its two steps.
- AttachTiming.PublishSucceedsInTime: does not cover a volume that is attached to another node or in a status other than AVAILABLE, ATTACHING and IN USE, which the handler answers with an error, or one whose attachment is removed meanwhile; what holds in every run is `AttachProtocol.PublishFlightAttachesOnce`.
- AttachTiming.UnpublishSucceedsInTime: does not cover a detachment that the cloud gives up or an attachment made meanwhile, which call for another Detach; what holds in every run is `AttachProtocol.UnpublishFlightDetachesOnce`.
- BosProtocol.PublishWithinTwoCalls: does not model the 15 seconds and 500 milliseconds of the wait loop, because docker is assumed to bring the container up in time; in `BosServer` the number of inspections is a parameter.
- NodeLifecycle.LifeCycleRestores: does not model targets below one another or below the staging path, because removing a directory that is not empty fails.
- Checks that only look at a request (capabilities, storage type, payment, reservation, credentials, bucket) are folded into one flag or verdict; the answer to a bad request is modelled, its parsing is not.
- The repository's README.md does not list the expand calls among those implemented; the code implements and advertises them, and the model follows the code.
- DeleteVolume, ValidateVolumeCapabilities, NodeGetVolumeStats, the identity service, topology, zones, tags, mount options and the formatting of devices: no interplay with the state above.
- Pulling the bosfs image, which comes before the container is created and has no other effect here; the authentication and signing code; gRPC, flags and logging.
- Paused containers are started as the code does, but no progress is promised for them.
