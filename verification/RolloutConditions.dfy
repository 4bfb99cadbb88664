/** One pass of reconcileRollout with its effect on the StatefulSet and the status conditions,
    and what the conditions mean over any sequence of passes
    (internal/controller/rollout.go, internal/controller/status.go). */
module RolloutConditions {
  import opened Text
  import opened Rollout

  // ---------- conditions ----------

  /** The conditions of the rollout, among others. */
  datatype ConditionType = UpdateInProgress | RolloutBlocked | RolloutStalled | Other(name: string)

  /** The reasons the rollout gives for them. */
  datatype ConditionReason =
    | WaitingReason | FinishingReason | RestartingReason      // of UpdateInProgress
    | PausedReason | WaitingForClusterReason                  // of RolloutBlocked
    | StallTimeoutReason | ProgressingReason                  // of RolloutStalled

  datatype Condition = Condition(status: bool, reason: ConditionReason, lastTransition: int)

  type Conditions = map<ConditionType, Condition>

  const DEFAULT_STALL := 30 * 60 * 1_000_000_000  // 30 minutes in nanoseconds

  /** setCondition: the transition time moves only when the status flips or is new. */
  function SetCondition(conds: Conditions, typ: ConditionType, status: bool, reason: ConditionReason, now: int): Conditions {
    if typ in conds && conds[typ].status == status then
      conds[typ := Condition(status, reason, conds[typ].lastTransition)]
    else
      conds[typ := Condition(status, reason, now)]
  }

  function ClearBlocked(conds: Conditions): Conditions {
    conds - {RolloutBlocked} - {RolloutStalled}
  }

  function StallTimeout(spec: Spec): int {
    if spec.rollout.Some? && spec.rollout.value.stallTimeout.Some? then spec.rollout.value.stallTimeout.value
    else DEFAULT_STALL
  }

  /** The clock readings of a pass: as each condition is set, and as the age of a streak is taken. */
  datatype Clock = Clock(updating: int, blocked: int, age: int, stalled: int)

  /** markBlocked. */
  function MarkBlocked(conds: Conditions, spec: Spec, reason: ConditionReason, canStall: bool, clock: Clock): Conditions {
    var c1 := SetCondition(conds, UpdateInProgress, true, WaitingReason, clock.updating);
    var c2 := SetCondition(c1, RolloutBlocked, true, reason, clock.blocked);
    var stalled := canStall && clock.age - c2[RolloutBlocked].lastTransition > StallTimeout(spec);
    if stalled then SetCondition(c2, RolloutStalled, true, StallTimeoutReason, clock.stalled)
    else SetCondition(c2, RolloutStalled, false, ProgressingReason, clock.stalled)
  }

  /** The conditions a completed pass leaves. */
  function After(conds: Conditions, spec: Spec, pass: Pass, clock: Clock): Conditions {
    match pass
    case NoRollout => ClearBlocked(conds - {UpdateInProgress})
    case Finishing => ClearBlocked(SetCondition(conds, UpdateInProgress, true, FinishingReason, clock.updating))
    case Paused => MarkBlocked(conds, spec, PausedReason, false, clock)
    case Waiting(_) => MarkBlocked(conds, spec, WaitingForClusterReason, true, clock)
    case Release(_) => ClearBlocked(SetCondition(conds, UpdateInProgress, true, RestartingReason, clock.updating))
  }

  // ---------- one pass ----------

  class Cluster {
    const spec: Spec
    var conditions: Conditions

    constructor (spec: Spec)
      ensures this.spec == spec && conditions == map[]
    {
      this.spec := spec;
      conditions := map[];
    }

    method Mark(reason: ConditionReason, canStall: bool, clock: Clock)
      modifies this`conditions
      ensures conditions == MarkBlocked(old(conditions), spec, reason, canStall, clock)
    {
      conditions := SetCondition(conditions, UpdateInProgress, true, WaitingReason, clock.updating);
      conditions := SetCondition(conditions, RolloutBlocked, true, reason, clock.blocked);
      var stalled := false;
      if canStall {
        var timeout := StallTimeout(spec);
        stalled := clock.age - conditions[RolloutBlocked].lastTransition > timeout;
      }
      if stalled {
        conditions := SetCondition(conditions, RolloutStalled, true, StallTimeoutReason, clock.stalled);
      } else {
        conditions := SetCondition(conditions, RolloutStalled, false, ProgressingReason, clock.stalled);
      }
    }
  }

  class StatefulSet {
    const uid: string
    const currentRevision: string
    const updateRevision: string
    var partition: Option<int>

    constructor (uid: string, currentRevision: string, updateRevision: string, partition: Option<int>)
      ensures this.uid == uid && this.currentRevision == currentRevision
      ensures this.updateRevision == updateRevision && this.partition == partition
    {
      this.uid := uid;
      this.currentRevision := currentRevision;
      this.updateRevision := updateRevision;
      this.partition := partition;
    }

    function View(): Sts
      reads this
    {
      Sts(uid, partition, currentRevision, updateRevision)
    }
  }

  datatype PatchReply = Patched | Rejected | ReplyLost

  /** Whether the StatefulSet could be read. */
  datatype StsRead = Found | NotFound | Unreadable

  /** How a pass ended: with no StatefulSet, or on a read error, everything is left alone. */
  datatype Outcome = Finished(pass: Pass) | NoStatefulSet | ReadFailed | PatchFailed(next: int)

  /** What a pass over a rollout in progress does, from what it has read. */
  method Evaluate(spec: Spec, view: Sts, pods: seq<RolloutPod>, riak: RiakReads) returns (pass: Pass)
    requires InProgress(view)
    ensures pass == Decide(spec, view, pods, riak)
  {
    var partition := LivePartition(view);
    var next, blocked := RolloutNext(partition, spec.size, view.updateRevision, pods);
    if partition <= 0 {
      return Finishing;
    }
    if spec.Paused() {
      return Pass.Paused;
    }
    if blocked.None? {
      blocked := ClusterSettled(spec, pods, riak);
    }
    if blocked.Some? {
      return Waiting(blocked.value);
    }
    return Release(next);
  }

  /** The partition a pass leaves behind. */
  function PartitionAfter(partition: Option<int>, outcome: Outcome, reply: PatchReply): Option<int> {
    match outcome
    case Finished(Release(next)) => Some(next)
    case PatchFailed(next) => if reply == ReplyLost then Some(next) else partition
    case _ => partition
  }

  function OutcomeOf(pass: Pass, reply: PatchReply): Outcome {
    if pass.Release? && reply != Patched then PatchFailed(pass.next) else Finished(pass)
  }

  /** The effect of a pass on the StatefulSet and the conditions. */
  method Conclude(cluster: Cluster, sts: StatefulSet, pass: Pass, reply: PatchReply, clock: Clock)
    returns (outcome: Outcome)
    modifies cluster`conditions, sts`partition
    ensures outcome == OutcomeOf(pass, reply)
    ensures cluster.conditions ==
              if outcome.Finished? then After(old(cluster.conditions), cluster.spec, pass, clock)
              else old(cluster.conditions)
    ensures sts.partition == PartitionAfter(old(sts.partition), outcome, reply)
  {
    match pass {
      case NoRollout =>
        cluster.conditions := ClearBlocked(cluster.conditions - {UpdateInProgress});
      case Finishing =>
        cluster.conditions := SetCondition(cluster.conditions, UpdateInProgress, true, FinishingReason, clock.updating);
        cluster.conditions := ClearBlocked(cluster.conditions);
      case Paused =>
        cluster.Mark(PausedReason, false, clock);
      case Waiting(why) =>
        cluster.Mark(WaitingForClusterReason, true, clock);
      case Release(next) =>
        if reply != Rejected {
          sts.partition := Some(next);
        }
        if reply != Patched {
          return PatchFailed(next);
        }
        cluster.conditions := SetCondition(cluster.conditions, UpdateInProgress, true, RestartingReason, clock.updating);
        cluster.conditions := ClearBlocked(cluster.conditions);
    }
    return Finished(pass);
  }

  /** reconcileRollout. `listing` is None when the pods cannot be
      listed; `reply` is what the API answers to the patch if one is sent. A pass that cannot read
      changes nothing, and only a released pod changes the partition. */
  method ReconcileRollout(cluster: Cluster, sts: StatefulSet, read: StsRead, listing: Option<seq<ApiPod>>, riak: RiakReads,
                          reply: PatchReply, clock: Clock)
    returns (outcome: Outcome)
    modifies cluster`conditions, sts`partition
    ensures read == NotFound <==> outcome == NoStatefulSet
    ensures read == Unreadable ==> outcome == ReadFailed
    ensures read == Found && !InProgress(old(sts.View())) ==> outcome == Finished(NoRollout)
    ensures read == Found && InProgress(old(sts.View())) && listing.None? ==> outcome == ReadFailed
    ensures read == Found && InProgress(old(sts.View())) && listing.Some? ==>
              outcome == OutcomeOf(Decide(cluster.spec, old(sts.View()), AllListed(listing.value), riak), reply)
    ensures cluster.conditions ==
              if outcome.Finished? then After(old(cluster.conditions), cluster.spec, outcome.pass, clock)
              else old(cluster.conditions)
    ensures sts.partition == PartitionAfter(old(sts.partition), outcome, reply)
    ensures sts.partition != old(sts.partition) ==>
              && read == Found && listing.Some? && reply != Rejected
              && Decide(cluster.spec, old(sts.View()), AllListed(listing.value), riak).Release?
              && old(sts.partition).Some? && sts.partition == Some(old(sts.partition).value - 1)
    ensures read == Found && listing.Some? && Decide(cluster.spec, old(sts.View()), AllListed(listing.value), riak).Release? ==>
              && (reply != Rejected ==> sts.partition == Some(LivePartition(old(sts.View())) - 1))
              && (reply != Patched ==> cluster.conditions == old(cluster.conditions) && outcome.PatchFailed?)
  {
    if listing.Some? {
      PassIff(cluster.spec, sts.View(), AllListed(listing.value), riak);
    }
    if read == Unreadable {
      return ReadFailed;
    }
    if read == NotFound {
      return NoStatefulSet;
    }
    var view := sts.View();
    if !InProgress(view) {
      outcome := Conclude(cluster, sts, NoRollout, reply, clock);
      return;
    }
    if listing.None? {
      return ReadFailed;
    }
    var pods := RolloutPods(listing.value);
    var pass := Evaluate(cluster.spec, view, pods, riak);
    outcome := Conclude(cluster, sts, pass, reply, clock);
  }

  // ---------- any sequence of passes ----------

  /** A stored time is in whole seconds. */
  const SECOND := 1_000_000_000

  function WholeSeconds(t: int): (r: int)
    ensures r % SECOND == 0 && r <= t < r + SECOND
    ensures t % SECOND == 0 ==> r == t
  {
    t - t % SECOND
  }

  /** The conditions as the API stores them. */
  function Stored(conds: Conditions): Conditions {
    map typ | typ in conds :: conds[typ].(lastTransition := WholeSeconds(conds[typ].lastTransition))
  }

  /** A reconcile whose pass completed and whose status was stored. */
  datatype Beat = Beat(spec: Spec, pass: Pass, clock: Clock) {
    predicate Blocked() { pass.Paused? || pass.Waiting? }
  }

  /** The conditions after a sequence of reconciles; None is one that failed or was not stored. */
  function Run(conds: Conditions, reconciles: seq<Option<Beat>>): Conditions {
    if reconciles == [] then conds
    else
      var n := |reconciles| - 1;
      var before := Run(conds, reconciles[..n]);
      match reconciles[n]
      case None => before
      case Some(b) => Stored(After(before, b.spec, b.pass, b.clock))
  }

  /** The reconciles that counted. */
  function Counted(reconciles: seq<Option<Beat>>): seq<Beat> {
    if reconciles == [] then []
    else
      var n := |reconciles| - 1;
      Counted(reconciles[..n]) + (if reconciles[n].Some? then [reconciles[n].value] else [])
  }

  /** The current blocked streak begins at i: every pass from there on was blocked (waiting or
      paused), and the one before it, if any, was not. */
  predicate StreakStart(beats: seq<Beat>, i: int) {
    && 0 <= i < |beats|
    && (forall k :: i <= k < |beats| ==> beats[k].Blocked())
    && (i > 0 ==> !beats[i - 1].Blocked())
  }

  /** When a streak that began at i began, as the last pass read it: rounded down to the second
      once it has been stored. */
  function Began(beats: seq<Beat>, i: int): int
    requires 0 <= i < |beats|
  {
    if i == |beats| - 1 then beats[i].clock.blocked else WholeSeconds(beats[i].clock.blocked)
  }

  /** How long a rollout may wait: as long as the spec says, or half an hour, in nanoseconds. */
  function Patience(spec: Spec): int {
    match spec.rollout
    case Some(RolloutConfig(_, _, Some(timeout))) => timeout
    case _ => 1_800_000_000_000
  }

  /** The last pass was an unpaused blocked one that found the streak older than the timeout. */
  predicate Overdue(beats: seq<Beat>, i: int) {
    && StreakStart(beats, i)
    && var last := beats[|beats| - 1];
       && last.pass.Waiting?
       && last.clock.age - Began(beats, i) > Patience(last.spec)
  }

  /** The conditions of a streak that began at i. */
  predicate TellsStreak(conds: Conditions, beats: seq<Beat>, i: int) {
    && StreakStart(beats, i)
    && RolloutBlocked in conds && conds[RolloutBlocked].status && conds[RolloutBlocked].lastTransition == WholeSeconds(beats[i].clock.blocked)
    && RolloutStalled in conds && (conds[RolloutStalled].status <==> Overdue(beats, i))
  }

  predicate TellsNothing(conds: Conditions) {
    RolloutBlocked !in conds && RolloutStalled !in conds
  }

  lemma BlockedBeat(before: Conditions, beats: seq<Beat>, b: Beat, i: int)
    requires b.Blocked()
    requires
      || (i == |beats| && TellsNothing(before) && (beats != [] ==> !beats[i - 1].Blocked()))
      || (i < |beats| && TellsStreak(before, beats, i))
    ensures TellsStreak(Stored(After(before, b.spec, b.pass, b.clock)), beats + [b], i)
  {
    var all := beats + [b];
    assert all[|all| - 1] == b;
    assert StreakStart(all, i);
  }

  lemma FreeBeat(before: Conditions, b: Beat)
    requires !b.Blocked()
    ensures TellsNothing(Stored(After(before, b.spec, b.pass, b.clock)))
  {
  }

  /** The conditions tell the current streak, which began at i, or nothing. */
  predicate Tells(conds: Conditions, beats: seq<Beat>, i: int) {
    if beats != [] && beats[|beats| - 1].Blocked() then TellsStreak(conds, beats, i) else TellsNothing(conds)
  }

  lemma BeatTells(before: Conditions, beats: seq<Beat>, b: Beat, i: int) returns (j: int)
    requires Tells(before, beats, i)
    ensures Tells(Stored(After(before, b.spec, b.pass, b.clock)), beats + [b], j)
  {
    j := i;
    if b.Blocked() {
      if beats == [] || !beats[|beats| - 1].Blocked() {
        j := |beats|;
      }
      BlockedBeat(before, beats, b, j);
    } else {
      FreeBeat(before, b);
    }
  }

  /** Over any sequence of reconciles, RolloutBlocked is there exactly during a blocked streak,
      True since the streak's first pass; and RolloutStalled is True exactly when the last pass
      was an unpaused blocked one that found the streak older than the timeout. */
  lemma {:induction false} ConditionsTellStreak(conds: Conditions, reconciles: seq<Option<Beat>>) returns (i: int)
    requires TellsNothing(conds)
    ensures Tells(Run(conds, reconciles), Counted(reconciles), i)
  {
    i := 0;
    if reconciles != [] {
      var n := |reconciles| - 1;
      i := ConditionsTellStreak(conds, reconciles[..n]);
      if reconciles[n].Some? {
        i := BeatTells(Run(conds, reconciles[..n]), Counted(reconciles[..n]), reconciles[n].value, i);
      }
    }
  }

  /** The start of the current streak is determined by the passes. */
  lemma StreakStartUnique(beats: seq<Beat>, i: int, j: int)
    requires StreakStart(beats, i) && StreakStart(beats, j)
    ensures i == j
  {
  }

  /** So a pause in the middle of a streak does not restart its clock. */
  lemma PauseKeepsStreak(conds: Conditions, reconciles: seq<Option<Beat>>, pause: Beat)
    requires TellsNothing(conds) && pause.pass.Paused?
    requires RolloutBlocked in Run(conds, reconciles)
    ensures var later := Run(conds, reconciles + [Some(pause)]);
            && RolloutBlocked in later && RolloutStalled in later && !later[RolloutStalled].status
            && later[RolloutBlocked].lastTransition == Run(conds, reconciles)[RolloutBlocked].lastTransition
  {
    var i := ConditionsTellStreak(conds, reconciles);
    var all := reconciles + [Some(pause)];
    assert all[..|reconciles|] == reconciles;
    var j := ConditionsTellStreak(conds, all);
    var beats := Counted(reconciles);
    assert Counted(all) == beats + [pause];
    assert StreakStart(beats + [pause], i);
    StreakStartUnique(beats + [pause], i, j);
  }

  // ---------- every condition ----------

  /** The clock reading a condition is set with. */
  function Reading(typ: ConditionType, b: Beat): int {
    if typ == RolloutBlocked then b.clock.blocked else if typ == RolloutStalled then b.clock.stalled else b.clock.updating
  }

  lemma TransitionRule(before: Conditions, b: Beat, typ: ConditionType)
    requires typ in {UpdateInProgress, RolloutBlocked, RolloutStalled}
    ensures var after := After(before, b.spec, b.pass, b.clock);
            typ in after ==>
              after[typ].lastTransition ==
                if typ in before && before[typ].status == after[typ].status then before[typ].lastTransition else Reading(typ, b)
  {
  }

  function StatusAfter(conds: Conditions, reconciles: seq<Option<Beat>>, typ: ConditionType): Option<bool> {
    if typ in Run(conds, reconciles) then Some(Run(conds, reconciles)[typ].status) else None
  }

  /** The status a condition has now it has had since the i-th reconcile, and not before. */
  predicate Since(conds: Conditions, reconciles: seq<Option<Beat>>, typ: ConditionType, i: int) {
    && 0 <= i < |reconciles| && reconciles[i].Some?
    && (forall k :: i < k <= |reconciles| ==> StatusAfter(conds, reconciles[..k], typ) == StatusAfter(conds, reconciles, typ))
    && StatusAfter(conds, reconciles[..i], typ) != StatusAfter(conds, reconciles, typ)
  }

  lemma SinceStays(conds: Conditions, reconciles: seq<Option<Beat>>, typ: ConditionType, next: Option<Beat>, i: int)
    requires Since(conds, reconciles, typ, i)
    requires StatusAfter(conds, reconciles + [next], typ) == StatusAfter(conds, reconciles, typ)
    ensures Since(conds, reconciles + [next], typ, i)
  {
    var all := reconciles + [next];
    forall k | i < k <= |all| ensures StatusAfter(conds, all[..k], typ) == StatusAfter(conds, all, typ) {
      if k <= |reconciles| {
        assert all[..k] == reconciles[..k];
      } else {
        assert all[..k] == all;
      }
    }
    assert all[..i] == reconciles[..i];
  }

  lemma SinceLast(conds: Conditions, reconciles: seq<Option<Beat>>, typ: ConditionType)
    requires reconciles != [] && reconciles[|reconciles| - 1].Some?
    requires StatusAfter(conds, reconciles[..|reconciles| - 1], typ) != StatusAfter(conds, reconciles, typ)
    ensures Since(conds, reconciles, typ, |reconciles| - 1)
  {
    assert reconciles[..|reconciles|] == reconciles;
  }

  /** The transition time of each of the three conditions is when its status last changed. */
  lemma {:induction false} TransitionTimes(conds: Conditions, reconciles: seq<Option<Beat>>, typ: ConditionType) returns (i: int)
    requires typ in {UpdateInProgress, RolloutBlocked, RolloutStalled} && typ !in conds && typ in Run(conds, reconciles)
    ensures Since(conds, reconciles, typ, i)
    ensures Run(conds, reconciles)[typ].lastTransition == WholeSeconds(Reading(typ, reconciles[i].value))
  {
    var n := |reconciles| - 1;
    var before, last := reconciles[..n], reconciles[n];
    assert reconciles == before + [last];
    if last.Some? {
      TransitionRule(Run(conds, before), last.value, typ);
    }
    if StatusAfter(conds, before, typ) == StatusAfter(conds, reconciles, typ) {
      i := TransitionTimes(conds, before, typ);
      SinceStays(conds, before, typ, last, i);
    } else {
      i := n;
      SinceLast(conds, reconciles, typ);
    }
  }

  lemma AfterUpdating(before: Conditions, b: Beat)
    ensures var after := After(before, b.spec, b.pass, b.clock);
            && (UpdateInProgress in after <==> b.pass != NoRollout)
            && (UpdateInProgress in after ==> after[UpdateInProgress].status)
            && (b.pass.Finishing? ==> after[UpdateInProgress].reason == FinishingReason)
            && (b.pass.Release? ==> after[UpdateInProgress].reason == RestartingReason)
            && (b.Blocked() ==> after[UpdateInProgress].reason == WaitingReason)
  {
  }

  lemma AfterBlocked(before: Conditions, b: Beat)
    requires b.Blocked()
    ensures var after := After(before, b.spec, b.pass, b.clock);
            && RolloutBlocked in after && RolloutStalled in after
            && after[RolloutBlocked].reason == (if b.pass.Paused? then PausedReason else WaitingForClusterReason)
            && after[RolloutStalled].reason == (if after[RolloutStalled].status then StallTimeoutReason else ProgressingReason)
  {
  }

  lemma RunSnoc(conds: Conditions, before: seq<Option<Beat>>, last: Option<Beat>)
    ensures Run(conds, before + [last]) ==
            if last.None? then Run(conds, before)
            else Stored(After(Run(conds, before), last.value.spec, last.value.pass, last.value.clock))
    ensures Counted(before + [last]) == Counted(before) + (if last.Some? then [last.value] else [])
  {
    assert (before + [last])[..|before|] == before;
  }

  /** UpdateInProgress is there, and True, exactly while a rollout runs. */
  lemma {:induction false} UpdatingTellsRollout(conds: Conditions, reconciles: seq<Option<Beat>>)
    requires UpdateInProgress !in conds
    ensures var beats, now := Counted(reconciles), Run(conds, reconciles);
            && (UpdateInProgress in now <==> beats != [] && beats[|beats| - 1].pass != NoRollout)
            && (UpdateInProgress in now ==> now[UpdateInProgress].status)
  {
    if reconciles != [] {
      var n := |reconciles| - 1;
      UpdatingTellsRollout(conds, reconciles[..n]);
      assert reconciles == reconciles[..n] + [reconciles[n]];
      RunSnoc(conds, reconciles[..n], reconciles[n]);
      if reconciles[n].Some? {
        AfterUpdating(Run(conds, reconciles[..n]), reconciles[n].value);
      }
    }
  }

  /** The reasons the last pass leaves. */
  lemma ReasonsTellPass(conds: Conditions, reconciles: seq<Option<Beat>>, b: Beat)
    ensures var now := Run(conds, reconciles + [Some(b)]);
            && (b.pass != NoRollout ==> UpdateInProgress in now)
            && (b.pass.Finishing? ==> now[UpdateInProgress].reason == FinishingReason)
            && (b.pass.Release? ==> now[UpdateInProgress].reason == RestartingReason)
            && (b.pass.Paused? || b.pass.Waiting? ==> now[UpdateInProgress].reason == WaitingReason)
            && (b.pass.Paused? || b.pass.Waiting? ==> RolloutBlocked in now && RolloutStalled in now)
            && (b.pass.Paused? ==> now[RolloutBlocked].reason == PausedReason)
            && (b.pass.Waiting? ==> now[RolloutBlocked].reason == WaitingForClusterReason)
            && (b.pass.Paused? || b.pass.Waiting? ==>
                  now[RolloutStalled].reason == if now[RolloutStalled].status then StallTimeoutReason else ProgressingReason)
  {
    RunSnoc(conds, reconciles, Some(b));
    AfterUpdating(Run(conds, reconciles), b);
    if b.Blocked() {
      AfterBlocked(Run(conds, reconciles), b);
    }
  }
}
