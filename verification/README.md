# OpenRiak operator: verified model

A Dafny 4.11 model of the parts of the OpenRiak operator and of its stress and soak tools whose
correctness is about whole runs, with proofs of what they promise. `dafny verify dfyconfig.toml`
checks everything.

| file | models |
|---|---|
| `Text.dfy`, `Counting.dfy` | Go's `strings` functions with their round trips; counting arguments |
| `GrantTable.dfy` | the `print-grants` table: a printer with every freedom of layout, and the parser |
| `GrantCommands.dfy`, `GrantReconcile.dfy` | grant targets, tokens and commands against a Riak that holds (type, bucket, token) triples; making a user's grants equal the spec |
| `RiakStatus.dfy` | reading `member-status` and `transfers` |
| `Rollout.dfy`, `RolloutConditions.dfy` | the decisions of the rolling restart, one pass of `reconcileRollout`, the status conditions over any sequence of passes |
| `RolloutProtocol.dfy`, `RolloutProgress.dfy`, `RolloutFairness.dfy` | the rolling restart as a protocol between the operator, the StatefulSet controller and arbitrary pod events: safety over every run, a way on to completion from every state, and completion of every fair run |
| `Membership.dfy` | forming one ring out of standalone nodes, and the Ready gate |
| `Wire.dfy`, `RiakMessages.dfy`, `Framing.dfy` | the stress client's protobuf codec, its messages, and framing over a stream that arrives in arbitrary pieces |
| `Values.dfy`, `StressWorker.dfy` | the values a stress thread writes, how it judges what it reads, and its puts, retries and reads over any run |
| `SoakScaler.dfy`, `SoakMonitor.dfy` | the soak autoscaler and the monitor loop around it |

## Hypotheses

The environment is part of the model, and these are the assumptions made about it.

- Rolling restart. One rollout: a fixed size, one new revision different from the current one, and no
  return to the old template while it runs. The StatefulSet controller replaces only outdated pods at
  ordinals at or above the partition, creates those on the new revision and lower ones on the current
  one, and acts on the live spec. Pods may become ready, unready or disappear at any time. One operator
  runs; its reads are current when made but may be outdated when it acts: the reads and the write of
  one reconcile are separate steps, and it may stop between any two of them. With a fixed size no pod
  is listed above it; `ReleaseCountsIff` says exactly what the gate lets through otherwise.
- Completion. A run is fair if nothing that stays due is left undone for ever: the StatefulSet
  controller acts, pods that exist become ready, the operator keeps reconciling. It is undisturbed from
  some point on if no more pods are lost or turn unready, no reconcile breaks off, and decisions find
  the rollout not paused and the ring settled.
- Grants. Riak holds triples for one user, takes one or two words after `on` and rejects other
  numbers. A failed command may have taken effect wholly, partly or not at all. Names are words without
  `|`; tokens hold no comma; no type is called `type`, which the parser takes for the header; no type or
  bucket is called `*`, which is how everything is printed. A type may be called `any`, but no grant is
  held on the whole of it: no command grants that, and the code could not revoke it
  (`RevokeAddressesEntry`). A spec grant on one of its buckets is granted and then revoked again
  (`SpecHonouredIff`, `AnyBucketIsLost`). Table cells at the left and right edge are at least
  one character wide: `ColumnsRecovered` shows that the parser needs exactly that.
- Ring. A node is standalone until the commit; pod names hold no dot, and a node is named after its
  pod, with or without a domain. A pod's own view may lag behind the seed's. Joins may be staged already.
- Stress client. One thread; SHA-256 is any function. A put that fails may take effect at once, never, or
  late. Other threads write other keys (`PlacesDiffer`).
- Soak. Times only move forward from sample to decision to the end of the action to the next sample. An
  action may be applied, refused, or applied with the answer lost, as when the update is stored, its
  answer lost and the read of the next attempt fails.

## Model

| member | source | states |
|---|---|---|
| `GrantTable.ParseDedicatedGrants` | internal/riak/executor.go:470-506 | the scan with its section flag, early return and in-place append yields the entries the text stands for |
| `GrantTable.PrintedGrantsAreReadBack` | internal/riak/executor.go:468-506 | for any entries, padding, rule lines, header rows, wrapping of token lists onto continuation rows, text before the section and a cumulative section after it, the parser returns exactly the entries printed |
| `GrantTable.ColumnsRecovered` | internal/riak/executor.go:484-487 | the three cells of a row come back if and only if the first and the last are not zero-width |
| `GrantTable.ZeroWidthContinuationIsDropped` | internal/riak/executor.go:484-487 | a continuation row with an unpadded type cell loses its tokens |
| `GrantTable.OddRowIsSkipped` | internal/riak/executor.go:484-487 | a row with any number of columns but three is skipped |
| `GrantTable.OrphanBecomesEntry` | internal/riak/executor.go:498-503 | a continuation row with no entry before it becomes an entry without a type |
| `GrantTable.EveryListIsPrintable` | internal/riak/manager_test.go:458-477 | every list of entries with proper names has a valid print-grants reply |
| `GrantCommands.PermissionTokens` | internal/riak/executor.go:438-450 | the nested loops with the seen map yield each token once, in first-seen order |
| `GrantCommands.TokensFit` | internal/riak/executor.go:342-357 | the tokens a permission expands to are riak_kv.get for read and admin, riak_kv.put for write and admin, and so on, and the comma parts of any other permission |
| `GrantCommands.RejectedIff` | internal/riak/executor.go:419-434 | a target is rejected if and only if its resource is unknown or its bucket is blank |
| `GrantCommands.FirstSeenLaws` | internal/riak/executor.go:436-450 | de-duplication keeps every element, drops every repeat and orders by first occurrence |
| `GrantCommands.GrantMeans` | internal/riak/executor.go:382-391 | the argument text of a grant command makes Riak add exactly its tokens on its target, and is rejected exactly when the target has not one or two words |
| `GrantCommands.RevokeMeans` | internal/riak/executor.go:395-404 | the argument text of a revoke command makes Riak remove exactly its tokens on its target, and is rejected exactly when the target has not one or two words |
| `GrantCommands.KeyTextAgrees` | internal/riak/manager.go:139-152 | grantKey is the type and bucket Riak files the target under, as print-grants shows them, if and only if the target is not a bucket of a type called any |
| `GrantCommands.RevokeAddressesEntry` | internal/riak/manager.go:209-215 | the target rebuilt from a printed entry addresses the very pair the entry was printed under, if and only if that is not a bucket under * and not the whole of a type called any |
| `GrantCommands.DesiredIff` | internal/riak/manager.go:154-157 | a triple is desired exactly when some spec grant asks for it |
| `GrantCommands.DesiredInWords` | internal/riak/executor.go:419-450 | a triple is desired if and only if some grant of the spec, read word by word, is on its type and bucket and its permission stands for its token |
| `GrantCommands.SpecHonouredIff` | internal/riak/manager.go:175-207 | the state a reconcile aims at, from whatever is held, is what the spec denotes if and only if no grant of the spec is on a bucket of a type called any |
| `GrantCommands.DesiredIgnoresOrder` | internal/riak/manager.go:164-173 | what a spec denotes does not depend on the order or repetition of its grants or on the white space of their targets |
| `GrantReconcile.RiakNode.Exec` | internal/riak/executor.go:65-84 | the environment: a command takes effect, or fails with any part of its effect in place, and fails if Riak does not understand it; every state is recorded |
| `GrantReconcile.RiakNode.PrintGrants` | internal/riak/executor.go:460-466 | the environment: any layout of any listing of what is held |
| `GrantReconcile.Batches` | internal/riak/manager.go:164-173 | one batch per distinct target in first-seen order, each with exactly its permissions |
| `GrantReconcile.BatchesDenoteSpec` | internal/riak/manager.go:164-191 | the batches together ask for exactly the triples the spec denotes, and the token table lists exactly its keys and tokens |
| `GrantReconcile.GrantPermissions` | internal/riak/executor.go:382-391 | a grant call adds exactly the batch's triples, rejects exactly the bad targets, and on failure adds no other |
| `GrantReconcile.RevokePermissions` | internal/riak/executor.go:395-404 | a revoke call removes exactly the given tokens on the target, rejects exactly the bad targets, and on failure removes no other |
| `GrantReconcile.GrantAll` | internal/riak/manager.go:175-191 | for every spec the grant phase ends with initial plus desired held and the token table equal to the spec's keys and tokens; nothing is removed on the way |
| `GrantReconcile.RevokeEntry` | internal/riak/manager.go:197-220 | one round of the revoke loop removes exactly the entry's triples outside the spec |
| `GrantReconcile.RevokeStale` | internal/riak/manager.go:197-220 | the revoke phase leaves exactly the part of what was held that is desired |
| `GrantReconcile.GrantUserPermissions` | internal/riak/manager.go:158-222 | a successful run, from any initial grants, leaves exactly the triples that some grant of the spec, read word by word, asks for, if and only if no grant is on a bucket of a type called any, and says what is left otherwise; which targets make it fail; every state of every run, aborted ones included, lies between initial ∩ desired (as far as tabled) and initial ∪ desired |
| `GrantReconcile.AnyBucketIsLost` | internal/riak/manager.go:139-152 | the run: one grant on a bucket of a type called any, from nothing held, ends well with nothing held |
| `GrantReconcile.BatchingRefines` | internal/riak/executor.go:375-391 | for every spec, one command per target leaves Riak in the same state as one command per grant |
| `GrantReconcile.BatchingIgnoresOrder` | internal/riak/manager.go:164-191 | the state after batched granting, and what the spec denotes, do not depend on the order or repetition of the spec's grants or on the white space of their targets |
| `RiakStatus.ParseMemberStatus` | internal/riak/executor.go:180-193 | the loop yields the members of the lines with four fields, a known status and a Riak node |
| `RiakStatus.MembersAreReadBack` | internal/riak/executor.go:177-193 | printing any members in the five known states, with any padding, between any lines that are no such rows, and parsing gives exactly those members, in order |
| `RiakStatus.ParseTransfersIdle` | internal/riak/executor.go:220-236 | idle if and only if the reply says so, nobody waits, and below every header only blank lines, "ok" and headers follow |
| `RiakStatus.IdleIff` | internal/riak/executor.go:206-236 | a reply is idle, in its own words and in any letter case, if and only if it says that no transfers are active and not that somebody waits to hand off, and nothing but blank lines, ok and the header stands below the header |
| `Rollout.RolloutNext` | internal/controller/rollout.go:105-125 | the next partition is one lower, or blocked with the reason at the lowest unfinished ordinal |
| `Rollout.ByOrdinalLast` | internal/controller/rollout.go:109-112 | where an ordinal is listed twice the later pod counts |
| `Rollout.FirstUnfinishedIff` | internal/controller/rollout.go:113-124 | nothing blocks if and only if every ordinal from the partition up exists, is on the update revision and Ready |
| `Rollout.OrdinalOfPodName` | internal/controller/rollout.go:127-137 | the ordinal parsed from a StatefulSet pod name is the pod's number |
| `Rollout.OrdinalInName` | internal/controller/rollout.go:127-137 | every name that ends in a dash, perhaps a plus, and the digits of an int32 carries that ordinal |
| `Rollout.NameOfOrdinal` | internal/controller/rollout.go:127-137 | and no other name carries one |
| `Rollout.RolloutPods` | internal/controller/rollout.go:196-213 | the loop lists the pods that are not terminating and whose name carries an ordinal |
| `Rollout.ListingIsComplete` | internal/controller/rollout.go:196-213 | every such pod is listed, with its ordinal, revision and readiness, once per API entry and in order |
| `Rollout.ProbeIsLowest` | internal/controller/rollout.go:222-230 | riak-admin is asked on a pod of lowest ordinal |
| `Rollout.RingUnsettledIff` | internal/controller/rollout.go:239-262 | the ring counts as settled if and only if it has exactly size members, all valid, and idle transfers unless the wait is off |
| `Rollout.ClusterSettled` | internal/controller/rollout.go:218-263 | the loops and early returns yield the first reason the cluster is not settled |
| `Rollout.ReleaseIff` | internal/controller/rollout.go:143-193 | a pass releases a node if and only if a rollout runs unpaused above partition 0, all released pods are finished and the cluster is settled; it lowers by one |
| `Rollout.PassIff` | internal/controller/rollout.go:143-180 | which pass it is, in the words of the spec and the StatefulSet: none, finishing, paused, or waiting or releasing |
| `Rollout.WaitsForAReason` | internal/controller/rollout.go:105-125 | the reason a pass waits for holds, at the lowest unfinished ordinal or the first unready pod, and everything asked before it was in order |
| `Rollout.PartitionWritten` | internal/controller/rollout.go:84-99 | a new object is not held, outside a rollout every pod is, and within one the live value is kept unless the size is below it |
| `Rollout.GateCountsIff` | internal/controller/rollout.go:218-221 | the pod count passes the gate if and only if no more ordinals below the size are missing than are listed at or above it |
| `Rollout.ReleaseCountsIff` | internal/controller/rollout.go:143-193 | a release, said of the ordinals of any listing: exactly when the released ones are finished, all listed are ready, no more are missing than left over, and the ring is settled |
| `Rollout.ReleaseNeedsEveryOrdinal` | internal/controller/rollout.go:218-221 | with nothing listed at or above the size, a release means that every ordinal exists |
| `Rollout.LeftoverPodHidesMissing` | internal/controller/rollout.go:218-230 | in any rollout, for any ordinals missing below the partition and at least as many left over above the size there is a listing, with a settled ring, on which a node is released |
| `RolloutProtocol.NextInv` | internal/controller/rollout.go:40-52 | every step of every actor keeps the rollout invariant |
| `RolloutProtocol.ShowsLists` | internal/controller/rollout.go:196-213 | of any API list that shows the pods under their StatefulSet names, with terminating ones among them, the listing is exactly the pods |
| `RolloutProtocol.OneNodeAtATime` | internal/controller/rollout.go:91-125 | in every state of every run the only pod at or above the partition that can be off the update revision is the one at the partition |
| `RolloutProtocol.OthersStayUp` | internal/controller/rollout.go:40-52 | in every run in which nothing else takes nodes away, from the first release on every node but the one at the partition is there and Ready |
| `RolloutProtocol.ListingTaken` | internal/controller/rollout.go:143-161 | the listing a decision uses was taken earlier in the same reconcile, at the same partition |
| `RolloutProtocol.LoweringIsGated` | internal/controller/rollout.go:161-193 | every lowering in any run is by one, unpaused, on a snapshot with all ordinals existing and Ready and all released ones updated, and with more than one node a settled ring as the seed reports it |
| `RolloutProtocol.ReleasesCountDown` | internal/controller/rollout.go:101-125 | the ordinals released in any run are size-1, size-2, ... in order, as many as the partition has come down, at most size |
| `RolloutProtocol.NothingRestartsBeforeRelease` | internal/controller/rollout.go:84-99 | until the operator releases a node no pod is up for replacement, template change or not |
| `RolloutProtocol.PartitionWithinRollout` | internal/controller/riakcluster_controller.go:411-421 | within a rollout the partition never rises and falls by at most one; written outside one it is held at the size, after completion too |
| `RolloutProgress.RolloutCanAlwaysFinish` | internal/controller/rollout.go:139-193 | from every state of every run after the template change, once the reconcile under way is over, undisturbed steps lead on to completion with every pod ready on the new revision |
| `RolloutFairness.FairRunsComplete` | internal/controller/rollout.go:139-193 | every fair run that is undisturbed from some point on completes the rollout, with every pod ready on the new revision |
| `RolloutFairness.FairRunsExist` | internal/controller/rollout.go:139-193 | for every size and pair of revisions there is a fair run, undisturbed from the start, in which the template changes |
| `RolloutConditions.Cluster.Mark` | internal/controller/rollout.go:274-294 | the conditions markBlocked leaves |
| `RolloutConditions.Evaluate` | internal/controller/rollout.go:154-180 | the order of checks of a pass yields the decision that ReleaseIff characterises |
| `RolloutConditions.ReconcileRollout` | internal/controller/rollout.go:143-193 | without a StatefulSet, or when something cannot be read, a pass changes nothing; the partition changes only by one, only on a decided release, and only if the patch was not rejected; a patch that is not answered leaves the conditions alone |
| `RolloutConditions.ConditionsTellStreak` | internal/controller/rollout.go:272-304 | over any sequence of reconciles RolloutBlocked is there exactly during a blocked streak, True since its first pass, stored in whole seconds, and RolloutStalled is True exactly when the last pass was an unpaused blocked one that found the streak older than the timeout |
| `RolloutConditions.TransitionTimes` | internal/controller/status.go:39-56 | over any sequence of reconciles the transition time of each of the three conditions is when its status last changed |
| `RolloutConditions.UpdatingTellsRollout` | internal/controller/rollout.go:149-192 | UpdateInProgress is there, and True, exactly while a rollout runs |
| `RolloutConditions.ReasonsTellPass` | internal/controller/rollout.go:162-192 | the reasons of the three conditions tell which pass was the last |
| `RolloutConditions.PauseKeepsStreak` | internal/controller/rollout.go:168-171 | a pause within a streak keeps its start and is never stalled |
| `Membership.ReadSeed` | internal/riak/manager.go:55-66 | the loop yields the ring's nodes, the valid count and the seed's own name |
| `Membership.SeedNodeIsLast` | internal/riak/manager.go:63-65 | the seed's own node is the last member of its list named after it |
| `Membership.StageJoins` | internal/riak/manager.go:78-98 | joins are sent for exactly the standalone pods outside the ring, in order, without an error, or up to the pod whose reply cannot be read or whose join fails |
| `Membership.ReconcileMembership` | internal/riak/manager.go:48-110 | when a pass fails, that it stops at the first error, which commands it sends, and that it reports the ring formed exactly with nothing to do and as many valid members as pods |
| `Membership.JoinsExactlyAlone` | internal/riak/manager.go:78-98 | whatever anybody reports, a join goes only to the seed's own node, only on a listed pod other than the seed, and only if that pod's own ring is just itself under a name the seed does not list; a pass that does not fail joins all such pods, and with none of them sends nothing |
| `Membership.NodeNamesTellPods` | internal/riak/manager.go:63-65 | node names tell pods apart, and only the seed's own name is taken for the seed |
| `Membership.PassJoinsExactlyOutside` | internal/riak/manager.go:78-107 | an error-free pass stages joins to the seed for exactly the pods outside, lagging views or not, plans and commits once, and leaves every pod in the ring, joins staged before it included |
| `Membership.PassesKeepShape` | internal/riak/manager.go:48-110 | whatever fails in any number of passes, only listed pods outside the ring are staged and only listed pods get in |
| `Membership.ErrorFreePass` | internal/riak/manager.go:78-110 | what an error-free pass sends and reports: formed exactly if every pod was in the ring, otherwise not yet |
| `Membership.MembershipConverges` | internal/riak/manager.go:39-48 | from any ring of some of the pods and after any number of passes that failed anywhere, one error-free pass brings every pod in, and the next sends nothing and reports the ring formed |
| `Membership.RingIsPrintable` | internal/controller/lifecycle_test.go:56-88 | every ring has a member-status table that reads back as it |
| `Membership.FormedMeansAllValid` | internal/riak/manager.go:55-66 | if the seed's members belong to distinct listed pods and as many are valid as pods are listed, every listed pod has a valid member |
| `Membership.ClusterStatus.Update` | internal/controller/riakcluster_controller.go:782-831 | the cluster is Ready if and only if all pods are ready and, with more than one node, every reply is read, no join is due and as many members are valid as pods; and the reason otherwise |
| `Membership.ReadyPodsCounted` | internal/controller/riakcluster_controller.go:722-736 | the count the gate compares with the size is the number of ready pods |
| `Membership.ReadyMeansOneRing` | internal/controller/riakcluster_controller.go:782-831 | a Ready multi-node cluster whose ring members belong to distinct listed pods has a valid member on every listed pod |
| `Membership.ReadyIffOneRing` | internal/controller/riakcluster_controller.go:782-831 | with nodes that report their ring, the ring condition for Ready holds if and only if every listed pod is in the ring |
| `Wire.EncodeVarint` | examples/stressapp/riak_stress.py:63-72 | the loop writes the base-128 varint |
| `Wire.VarintReadBack` | examples/stressapp/riak_stress.py:90-98 | a written number is read back and the bytes after it are left |
| `Wire.VarintShortest` | examples/stressapp/riak_stress.py:63-72 | no byte sequence shorter than the one written reads as the number |
| `Wire.DecodeVarint` | examples/stressapp/riak_stress.py:90-98 | the shifting loop reads the varint, or fails exactly when the data ends inside it |
| `Wire.ParseFields` | examples/stressapp/riak_stress.py:101-121 | the loop yields the fields up to the first that raises |
| `Wire.FieldsReadBack` | examples/stressapp/riak_stress.py:75-121 | parsing the concatenated encodings of any fields yields those fields |
| `Wire.ShortSized` | examples/stressapp/riak_stress.py:107-110 | a length-delimited field whose data ends early is yielded as short as it is, after the fields before it |
| `Wire.ShortFixed` | examples/stressapp/riak_stress.py:114-119 | so is a fixed-width one |
| `Wire.CutRaises` | examples/stressapp/riak_stress.py:90-98 | data that ends inside a tag, a number or a length raises, after the fields before it |
| `Wire.UnknownWireRaises` | examples/stressapp/riak_stress.py:120-121 | so do the wire types 3, 4, 6 and 7 |
| `RiakMessages.PutReqDecodes` | examples/stressapp/riak_stress.py:124-133 | decoding a put request recovers bucket, key, type and content, and clock and quorum exactly when truthy |
| `RiakMessages.ContentDecodes` | examples/stressapp/riak_stress.py:126 | decoding the content recovers the value |
| `RiakMessages.GetReqDecodes` | examples/stressapp/riak_stress.py:136-141 | decoding a get request recovers bucket, key and type, and the quorum exactly when truthy |
| `RiakMessages.DecodeGet` | examples/stressapp/riak_stress.py:144-154 | the nested loops yield the values and the clock, or the exception |
| `RiakMessages.GetRespReadBack` | examples/stressapp/riak_stress.py:144-154 | parse_get of any siblings and clock returns exactly the values in order and the clock |
| `RiakMessages.DecodePutVclock` | examples/stressapp/riak_stress.py:157-161 | the loop yields the first clock of a put reply, before anything after it can raise |
| `RiakMessages.PutVclockReadBack` | examples/stressapp/riak_stress.py:157-161 | the clock of any put reply is read back |
| `RiakMessages.PutStores` | examples/stressapp/test_riak_stress.py:93-105 | a put request stores its value under its bucket and key and nothing else |
| `RiakMessages.GetReads` | examples/stressapp/test_riak_stress.py:107-117 | a get request, answered and parsed, returns what is stored there |
| `Framing.UnframeFrame` | examples/stressapp/riak_stress.py:175-192 | a framed message in front of any bytes is read back and takes none of them |
| `Framing.CutFrameIsClosed` | examples/stressapp/riak_stress.py:179-192 | a stream that ends inside a frame yields no message |
| `Framing.ZeroFrameIsEmpty` | examples/stressapp/riak_stress.py:189-192 | a frame of length zero holds no code and takes none of the bytes after it |
| `Framing.FramesReadBack` | examples/stressapp/riak_stress.py:175-192 | a stream of frames determines its messages |
| `Framing.Connection.RecvExact` | examples/stressapp/riak_stress.py:179-186 | whatever the pieces, exactly n bytes, or an end-of-file error exactly when there are fewer |
| `Framing.Connection.RecvMsg` | examples/stressapp/riak_stress.py:189-192 | whatever the pieces, the message at the front and not one byte more; closed and empty frames told apart |
| `Framing.Connection.RecvAll` | examples/stressapp/riak_stress.py:175-192 | repeated receives return the sent messages in order and leave what follows |
| `Values.IntegerReadBack` | examples/stressapp/riak_stress.py:269 | Python's int() undoes %d on every integer |
| `Values.ValueLength` | examples/stressapp/riak_stress.py:244-249 | a value has the requested size unless its head alone is longer |
| `Values.ValuesDiffer` | examples/stressapp/riak_stress.py:244-249 | under one prefix values of different keys or versions never coincide, at any sizes |
| `Values.VersionOfIff` | examples/stressapp/riak_stress.py:263-274 | a value is taken for a version if and only if it is that version byte for byte |
| `Values.CorruptIff` | examples/stressapp/riak_stress.py:252-274 | a read is corrupt if and only if some value is no version of the key at any integer |
| `Values.VerdictFollows` | examples/stressapp/riak_stress.py:275-280 | otherwise the verdict follows the versions read, the expected and the uncertain one |
| `Values.JudgedIff` | examples/stressapp/riak_stress.py:275-280 | fine if and only if the expected version is among those read; otherwise the greatest has landed if it is the uncertain one, and else is ahead or stale as it is above or below the expected one |
| `Values.JudgedBySet` | examples/stressapp/riak_stress.py:275-280 | the verdict depends only on the set of versions read |
| `Values.Judge` | examples/stressapp/riak_stress.py:252-280 | the loop with its early returns yields that verdict |
| `StressWorker.PlacesDiffer` | examples/stressapp/riak_stress.py:324-328 | a thread's keys are all different and no two threads share one |
| `StressWorker.KeyText` | examples/stressapp/riak_stress.py:324-325 | a key reads prefix, t, thread, dash, and with several buckets b, bucket, dash, and the key number |
| `StressWorker.ValuesTellKeys` | examples/stressapp/riak_stress.py:326-328 | values of one prefix tell buckets, keys and versions apart, and threads while there are at most a thousand buckets |
| `StressWorker.PutAsks` | examples/stressapp/riak_stress.py:390-391 | a put's request, decoded, carries the bucket, the key, the type, the value, the clock if there is one and the quorum |
| `StressWorker.GetAsks` | examples/stressapp/riak_stress.py:364 | a get's request, decoded, carries the bucket, the key, the type and the quorum |
| `StressWorker.Worker.Put` | examples/stressapp/riak_stress.py:377-402 | the request sent, with the next version and the clock stored for the key, and the whole state after a put that is answered, or fails with or without effect; the version is uncertain until the answer |
| `StressWorker.Worker.RecordRead` | examples/stressapp/riak_stress.py:423-444 | the counters and the adopted version follow the verdict |
| `StressWorker.Worker.HandleReply` | examples/stressapp/riak_stress.py:369-376 | the whole state after any reply to a read |
| `StressWorker.Worker.Get` | examples/stressapp/riak_stress.py:359-376 | the request sent; a read over the wire is judged on what the store holds |
| `StressWorker.ReadIsExplained` | examples/stressapp/riak_stress.py:423-436 | a read finds the acknowledged version, or the uncertain one, which is then adopted |
| `StressWorker.ReadOutcome` | examples/stressapp/riak_stress.py:423-444 | a read that finds version v, in numbers: v is the key's version from then on, and it is counted as landed, ahead or stale, or not at all |
| `StressWorker.CountedOnce` | examples/stressapp/riak_stress.py:440-444 | a discrepancy is counted once: reading the key again adds nothing |
| `StressWorker.ReplyOutcome` | examples/stressapp/riak_stress.py:369-376 | any other reply: nothing found is a loss, a value that is no version is corrupt, several are siblings |
| `StressWorker.StepKeeps` | examples/stressapp/riak_stress.py:356-402 | every operation, and a late effect of a version still accounted for, keeps: each key stores the acknowledged or the uncertain version, and the uncertain one is the next |
| `StressWorker.NothingIsReported` | examples/stressapp/riak_stress.py:356-419 | in any run, whatever fails and however late failed puts take effect before a newer version is acknowledged, nothing is counted lost, corrupt, stale or ahead |
| `StressWorker.ReportedIff` | examples/stressapp/riak_stress.py:356-444 | in any run, with late effects at any time, something is reported if and only if some read found a version that is neither acknowledged nor uncertain |
| `StressWorker.RunCounts` | examples/stressapp/riak_stress.py:356-419 | over any run every put, read, final read and failure is counted where it belongs, once |
| `StressWorker.ClockIsLatest` | examples/stressapp/riak_stress.py:390-402 | at any point of any run the clock a put of a key carries is that of the last answered put or adopted read of it, or none |
| `StressWorker.LateIsUnreportedIff` | examples/stressapp/riak_stress.py:423-444 | a late effect of any version goes unreported by the next read if and only if the version is the acknowledged or the uncertain one |
| `StressWorker.LateIsReportedIff` | examples/stressapp/riak_stress.py:377-444 | appending a late effect and a read to a run that was in time so far keeps it unreported if and only if the effect landed before a newer version was acknowledged |
| `StressWorker.LatePutLooksStale` | examples/stressapp/riak_stress.py:389-398 | the run: a put fails, its retry and the next put are answered, the failed put takes effect, and the read is stale |
| `SoakScaler.GrownIsWholeStep` | test/scale/soak_policy.go:102-104 | the raised limit is a whole number of steps, even where int64 wraps |
| `SoakScaler.GrownExact` | test/scale/soak_policy.go:102-104 | without wrap-around the raised limit is half as much again rounded up by less than a step |
| `SoakScaler.WrappedIsNoRaise` | test/scale/soak_policy.go:99-112 | where three times the limit does not fit int64, the limit is never raised |
| `SoakScaler.RaiseIsByHalf` | test/scale/soak_policy.go:99-112 | from any int64 limit an uncapped raise is by at least half if and only if 3*cur mod 512Mi is not 1 |
| `SoakScaler.RaiseIsCapped` | test/scale/soak_policy.go:99-112 | every limit below the cap is raised, to half as much again rounded up to a step, or to the cap if that is less |
| `SoakScaler.OddRaiseFallsShort` | test/scale/soak_policy.go:99-112 | a limit from which the raise is by less than half |
| `SoakScaler.RaisesCompound` | test/scale/soak_policy.go:99-112 | k uncapped raises from an even limit multiply it by at least 3/2 each |
| `SoakScaler.CheckLastN` | test/scale/soak_policy.go:126-136 | the loop says whether the last n samples all satisfy the predicate |
| `SoakScaler.Scaler.Recent` | test/scale/soak_policy.go:116-123 | the history from the first sample after the last action |
| `SoakScaler.Scaler.Decide` | test/scale/soak_policy.go:141-195 | the order of checks yields the decision the run theorems are about |
| `SoakScaler.DecidesIff` | test/scale/soak_policy.go:141-195 | when the scaler acts and how, in numbers: never while a node is down or the cooldown runs; on kills or pressure it raises the memory, or adds a node at the cap if the cluster is ready; on sluggishness it only adds a node |
| `SoakScaler.Scaler.Applied` | test/scale/soak_policy.go:220-223 | the time and the kill count of the last action |
| `SoakMonitor.OomCounter.Observe` | test/scale/soak.go:308-335 | every kill shown is counted once, ever: the counter is the number of kills seen and never falls; restarts are summed |
| `SoakMonitor.KillsShown` | test/scale/soak.go:314-326 | the kills counted are those of Riak containers killed for memory, told apart by pod and restart number |
| `SoakMonitor.RestartsAddUp` | test/scale/soak.go:313-318 | restarts add up over pods and containers, of the Riak containers only |
| `SoakMonitor.Cluster.Apply` | test/scale/soak.go:450-481 | the five attempts: the action changes exactly the memory or the size if any update is stored, and succeeds if one is answered |
| `SoakMonitor.EndingIff` | test/scale/soak.go:450-481 | the five attempts end answered if one that is reached is, with the answer lost if none is but one was stored, and refused otherwise |
| `SoakMonitor.MonitorTurn` | test/scale/soak.go:542-558 | one turn of the loop on the kill counter, the scaler and the cluster is one step of the run |
| `SoakMonitor.RunLimits` | test/scale/soak_policy.go:138-195 | between any two points of any run memory and size never fall; memory stays within MaxMemory, size within max(start, MaxSize), with at most MaxMemory/256Mi + 1 raises and MaxSize - start scale-outs |
| `SoakMonitor.SamplesAreRecent` | test/scale/soak_policy.go:169-194 | the samples behind a pressure or slowness decision are all newer than the last action |
| `SoakMonitor.ActsIff` | test/scale/soak.go:542-558 | a turn changes the cluster if and only if it is asked and not refused, all nodes are up, no cooldown runs, and there is a cause and something to add for it |
| `SoakMonitor.ActionsAreSeparate` | test/scale/soak_policy.go:114-223 | over any run, lost answers included, every action is decided with all nodes up, and with the cluster ready if it adds a node, and rests on new OOM kills or on samples that all show its cause; and every answered action is at least a cooldown before whatever takes effect after it, which rests on none of its samples and kills |
| `SoakMonitor.KillChargedOnce` | test/scale/soak.go:308-335 | a kill charged to an answered action is charged to no action after it |
| `SoakMonitor.ProtectedIffAnswered` | test/scale/soak.go:542-558 | every possible later action is separate from an action that took effect if and only if its answer came back, or nothing is left to add, or there is no cooldown, it saw no kills and its last sample cannot count again in a window of two or more |
| `SoakMonitor.LostAnswerActsTwice` | test/scale/soak.go:450-481 | the run: an answer is lost, and one tick later the same kill raises the memory again, whatever the cooldown |

## Left out

- kubectl exec, the API client, contexts and logging: they appear only as steps that may fail.
- Pod templates, services, TLS, trust bundles, monitoring objects, metrics and the PodDisruptionBudget: object building.
- `CreateBucket`, user creation and security sources: single commands with error-text matching.
- A second template change, a return to the old revision and a size change during a rollout.
- Cached or stale API reads by the operator, and a StatefulSet controller acting on an old spec.
- The wording of condition messages and log lines; reasons are values.
- Percentiles, charts and reports; the pacing of the stress client; `window_record`.
- `error_text`: the text of an error.
- `checkStall`, `recordEvents`, `diskUsage` and the disk abort of the soak monitor; the memory percentage of `observePods`, which is an input sample.
- Rollout.ClusterSettled: counts pods and members as unbounded integers, not int32.
- Values.IntegerReadBack: Python's limit of 4300 digits for int() and %d is not modelled.
- Wire.EncodeVarint: negative numbers, on which the source does not terminate, are not inputs.
- Membership.ClusterStatus.Update: the per-node status fields and conditions are not modelled.
- SoakScaler.Scaler.Decide: percentages, rates and latencies are real numbers instead of floats.
