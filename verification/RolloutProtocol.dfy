/** The rolling restart as a protocol between three actors: the operator, whose reconcile is
    several steps apart in time, the StatefulSet controller, and whatever makes pods become
    ready, unready or disappear. */
module RolloutProtocol {
  import opened Text
  import opened Rollout
  import Counting

  // ---------- states and steps ----------

  /** What stays fixed in one rollout: the cluster's name, its size and the two revisions. */
  datatype Setting = Setting(cluster: string, size: int, oldRevision: string, newRevision: string) {
    predicate Valid() {
      1 <= size <= MAX_INT32 && newRevision != oldRevision && newRevision != ""
    }
  }

  datatype Pod = Pod(revision: string, ready: bool)

  /** How far the operator's current reconcile has come, with what it has read. */
  datatype Operator =
    | Idle
    | SpecWritten
    | HasSts(sts: Sts)
    | HasPods(sts: Sts, listing: seq<RolloutPod>)

  /** The StatefulSet (template, partition and status), the pods that exist and are not
      terminating, and the operator. */
  datatype State = State(
    template: string, partition: int, current: string, update: string,
    pods: map<int, Pod>, op: Operator)
  {
    function View(): Sts { Sts("uid", Some(partition), current, update) }
  }

  datatype Action =
    | WriteSpec(template: string)                // operator: reconcileStatefulSet
    | GetSts                                     // operator: reconcileRollout reads the StatefulSet
    | ListPods(api: seq<ApiPod>, listing: seq<RolloutPod>)  // operator: and then the pods
    | Act(spec: Spec, riak: RiakReads)           // operator: decides, and patches if it releases
    | Abandon                                    // operator: an error or a crash ends the reconcile
    | Observe                                    // StatefulSet controller: status sees the template
    | Kill(ord: int)                             // StatefulSet controller: deletes an outdated pod
    | Create(ord: int)                           // StatefulSet controller: creates a missing pod
    | Complete                                   // StatefulSet controller: the update is the current revision
    | SetReady(ord: int, ready: bool)            // anything: readiness changes
    | Lose(ord: int)                             // anything: a pod disappears

  predicate HasOrdinal(listing: seq<RolloutPod>, ord: int) {
    exists i :: 0 <= i < |listing| && listing[i].ordinal == ord
  }

  /** Each pod once, in any order, as it is. */
  predicate Covers(listing: seq<RolloutPod>, pods: map<int, Pod>) {
    && (forall i :: 0 <= i < |listing| ==>
          && listing[i].ordinal in pods
          && listing[i].revision == pods[listing[i].ordinal].revision
          && listing[i].ready == pods[listing[i].ordinal].ready)
    && (forall i, j :: 0 <= i < j < |listing| ==> listing[i].ordinal != listing[j].ordinal)
    && (forall ord :: ord in pods ==> HasOrdinal(listing, ord))
  }

  /** A listing of the pods, under names that carry their ordinals. */
  predicate Lists(listing: seq<RolloutPod>, pods: map<int, Pod>) {
    && Covers(listing, pods)
    && (forall i :: 0 <= i < |listing| ==> PodOrdinal(listing[i].name) == Some(listing[i].ordinal))
  }

  /** The API entry of the pod at an ordinal. */
  predicate ShowsPod(c: Setting, entry: ApiPod, ord: int, pod: Pod) {
    && ord >= 0 && entry.name == PodName(c.cluster, ord) && !entry.terminating
    && entry.revision == pod.revision && entry.ready == pod.ready
  }

  /** What the API returns: each pod once, under its StatefulSet name, in any order, and any number of
      pods that are on their way out. */
  ghost predicate ApiShows(c: Setting, api: seq<ApiPod>, pods: map<int, Pod>) {
    && (forall i :: 0 <= i < |api| && !api[i].terminating ==>
          exists ord :: ord in pods && ShowsPod(c, api[i], ord, pods[ord]))
    && (forall i, j :: 0 <= i < j < |api| && !api[i].terminating && !api[j].terminating ==> api[i].name != api[j].name)
    && (forall ord :: ord in pods ==> exists i :: 0 <= i < |api| && ShowsPod(c, api[i], ord, pods[ord]))
  }

  lemma ShownOrdinal(c: Setting, entry: ApiPod, ord: int, pod: Pod)
    requires c.Valid() && 0 <= ord < c.size && ShowsPod(c, entry, ord, pod)
    ensures PodOrdinal(entry.name) == Some(ord) && Listable(entry)
  {
    OrdinalOfPodName(c.cluster, ord);
  }

  /** What rolloutPods makes of it lists the pods. */
  lemma ShowsLists(c: Setting, api: seq<ApiPod>, pods: map<int, Pod>)
    requires c.Valid() && ApiShows(c, api, pods) && forall ord :: ord in pods ==> 0 <= ord < c.size
    ensures Lists(AllListed(api), pods)
  {
    var listing := AllListed(api);
    var from := ListingIsComplete(api);
    forall k | 0 <= k < |listing|
      ensures && listing[k].ordinal in pods
              && listing[k].revision == pods[listing[k].ordinal].revision
              && listing[k].ready == pods[listing[k].ordinal].ready
              && PodOrdinal(listing[k].name) == Some(listing[k].ordinal)
              && listing[k].ordinal >= 0 && listing[k].name == PodName(c.cluster, listing[k].ordinal)
    {
      EntryOfPod(c, api, pods, listing[k], from[k]);
    }
    forall k, l | 0 <= k < l < |listing| ensures listing[k].ordinal != listing[l].ordinal {
      assert from[k] < from[l];
      assert api[from[k]].name != api[from[l]].name;
    }
    forall ord | ord in pods ensures HasOrdinal(listing, ord) {
      var i :| 0 <= i < |api| && ShowsPod(c, api[i], ord, pods[ord]);
      ShownOrdinal(c, api[i], ord, pods[ord]);
      assert i in from;
      var k :| 0 <= k < |from| && from[k] == i;
      assert listing[k].ordinal == ord;
    }
  }

  lemma EntryOfPod(c: Setting, api: seq<ApiPod>, pods: map<int, Pod>, p: RolloutPod, i: nat)
    requires c.Valid() && ApiShows(c, api, pods) && (forall ord :: ord in pods ==> 0 <= ord < c.size)
    requires i < |api| && Listable(api[i]) && IsEntry(p, api[i])
    ensures p.ordinal in pods && p.revision == pods[p.ordinal].revision && p.ready == pods[p.ordinal].ready
    ensures PodOrdinal(p.name) == Some(p.ordinal) && p.ordinal >= 0 && p.name == PodName(c.cluster, p.ordinal)
  {
    var ord :| ord in pods && ShowsPod(c, api[i], ord, pods[ord]);
    ShownOrdinal(c, api[i], ord, pods[ord]);
  }

  predicate Init(c: Setting, s: State) {
    && s.template == s.current == s.update == c.oldRevision
    && 0 <= s.partition <= c.size
    && (forall ord :: ord in s.pods ==> 0 <= ord < c.size && s.pods[ord].revision == c.oldRevision)
    && s.op == Idle
  }

  /** The StatefulSet controller only replaces outdated pods at or above the partition. */
  predicate Killable(s: State, ord: int) {
    ord in s.pods && ord >= s.partition && s.pods[ord].revision != s.template
  }

  ghost predicate Next(c: Setting, s: State, a: Action, t: State) {
    match a
    case WriteSpec(template) =>
      && s.op == Idle
      && (template == s.template || template == c.newRevision)
      && t == s.(template := template, partition := StsPartition(s.View(), c.size), op := SpecWritten)
    case GetSts => s.op == SpecWritten && t == s.(op := HasSts(s.View()))
    case ListPods(api, listing) =>
      && s.op.HasSts? && ApiShows(c, api, s.pods) && listing == AllListed(api)
      && t == s.(op := HasPods(s.op.sts, listing))
    case Act(spec, riak) =>
      && s.op.HasPods? && spec.size == c.size
      && var pass := Decide(spec, s.op.sts, s.op.listing, riak);
         t == s.(partition := if pass.Release? then pass.next else s.partition, op := Idle)
    case Abandon => t == s.(op := Idle)
    case Observe => t == s.(update := s.template)
    case Kill(ord) => Killable(s, ord) && t == s.(pods := s.pods - {ord})
    case Create(ord) =>
      && 0 <= ord < c.size && ord !in s.pods
      && t == s.(pods := s.pods[ord := Pod(if ord < s.partition then s.current else s.template, false)])
    case Complete =>
      && s.update == s.template
      && (forall ord :: 0 <= ord < c.size ==> ord in s.pods && s.pods[ord].revision == s.update && s.pods[ord].ready)
      && t == s.(current := s.update)
    case SetReady(ord, ready) => ord in s.pods && t == s.(pods := s.pods[ord := s.pods[ord].(ready := ready)])
    case Lose(ord) => ord in s.pods && t == s.(pods := s.pods - {ord})
  }

  // ---------- the invariant ----------

  /** The rollout is under way: the status names the new revision next to the old one. */
  predicate Rolling(c: Setting, s: State) {
    s.update == c.newRevision && s.current == c.oldRevision
  }

  predicate Revisions(c: Setting, s: State) {
    && (s.template == c.oldRevision || s.template == c.newRevision)
    && (s.update == c.oldRevision || s.update == s.template)
    && (s.current == c.oldRevision || s.current == s.update == s.template == c.newRevision)
  }

  /** Where the pods stand, phase by phase. */
  predicate PodsInPhase(c: Setting, s: State) {
    && (forall ord :: ord in s.pods ==> 0 <= ord < c.size)
    && (s.update == c.oldRevision ==>
          && (forall ord :: ord in s.pods ==> s.pods[ord].revision == c.oldRevision)
          && (s.template == c.newRevision ==> s.partition == c.size))
    && (Rolling(c, s) ==> forall ord :: ord in s.pods ==>
          && (ord < s.partition ==> s.pods[ord].revision == c.oldRevision)
          && (ord > s.partition ==> s.pods[ord].revision == c.newRevision))
    && (s.current == c.newRevision ==> forall ord :: ord in s.pods ==> s.pods[ord].revision == c.newRevision)
  }

  /** What the operator read about the StatefulSet is still good for what it does with it. */
  predicate ViewHolds(c: Setting, s: State, sts: Sts) {
    && LivePartition(sts) == s.partition
    && (InProgress(sts) ==>
          && sts.updateRevision == s.update == c.newRevision
          && (s.current == c.newRevision ==> s.partition == 0))
  }

  /** A released pod listed on the new revision, if it exists, is still on it. */
  predicate StillNew(c: Setting, s: State, p: RolloutPod) {
    p.ordinal >= s.partition && p.revision == c.newRevision ==>
      (p.ordinal in s.pods ==> s.pods[p.ordinal].revision == c.newRevision)
  }

  predicate ListingHolds(c: Setting, s: State, sts: Sts, listing: seq<RolloutPod>) {
    InProgress(sts) ==> forall i :: 0 <= i < |listing| ==> StillNew(c, s, listing[i])
  }

  predicate OperatorHolds(c: Setting, s: State) {
    && (s.op.HasSts? ==> ViewHolds(c, s, s.op.sts))
    && (s.op.HasPods? ==> ViewHolds(c, s, s.op.sts) && ListingHolds(c, s, s.op.sts, s.op.listing))
  }

  predicate Inv(c: Setting, s: State) {
    && 0 <= s.partition <= c.size
    && Revisions(c, s)
    && PodsInPhase(c, s)
    && OperatorHolds(c, s)
  }

  lemma InitInv(c: Setting, s: State)
    requires c.Valid() && Init(c, s)
    ensures Inv(c, s)
  {
  }

  /** A released pod's listing pins the pods that exist when the patch lands. */
  lemma ActInv(c: Setting, s: State, spec: Spec, riak: RiakReads, t: State)
    requires c.Valid() && Inv(c, s) && Next(c, s, Act(spec, riak), t)
    ensures Inv(c, t)
    ensures t.partition != s.partition ==> t.partition == s.partition - 1 && Rolling(c, s)
  {
    var sts, listing := s.op.sts, s.op.listing;
    ReleaseIff(spec, sts, listing, riak);
    if Decide(spec, sts, listing, riak).Release? {
      assert Rolling(c, s);
      forall ord | ord in s.pods && ord >= s.partition
        ensures s.pods[ord].revision == c.newRevision
      {
        ByOrdinalListed(listing, ord);
        var p := ByOrdinal(listing)[ord];
        var i :| 0 <= i < |listing| && listing[i] == p;
        assert StillNew(c, s, listing[i]);
      }
    }
  }

  /** The listing a reconcile takes lists the pods. */
  lemma ListStep(c: Setting, s: State, api: seq<ApiPod>, listing: seq<RolloutPod>, t: State)
    requires c.Valid() && Inv(c, s) && Next(c, s, ListPods(api, listing), t)
    ensures s.op.HasSts? && Lists(listing, s.pods) && t == s.(op := HasPods(s.op.sts, listing))
  {
    ShowsLists(c, api, s.pods);
  }

  lemma ListInv(c: Setting, s: State, listing: seq<RolloutPod>, t: State)
    requires c.Valid() && Inv(c, s) && s.op.HasSts? && Covers(listing, s.pods) && t == s.(op := HasPods(s.op.sts, listing))
    ensures Inv(c, t)
  {
    assert t.pods == s.pods && t.partition == s.partition;
    forall i | 0 <= i < |listing| ensures StillNew(c, t, listing[i]) {
      assert listing[i].revision == s.pods[listing[i].ordinal].revision;
    }
    assert PodsInPhase(c, t) && ViewHolds(c, t, s.op.sts);
  }

  lemma CompleteAtZero(c: Setting, s: State, t: State)
    requires c.Valid() && Inv(c, s) && Next(c, s, Complete, t) && Rolling(c, s)
    ensures s.partition == 0
  {
    assert 0 in s.pods;
  }

  predicate PodStep(a: Action) { a.Kill? || a.Create? || a.SetReady? || a.Lose? }

  lemma PodStepPods(c: Setting, s: State, a: Action, t: State)
    requires c.Valid() && Inv(c, s) && Next(c, s, a, t) && PodStep(a)
    ensures t == s.(pods := t.pods) && PodsInPhase(c, t)
  {
  }

  lemma PodStepStillNew(c: Setting, s: State, a: Action, t: State, p: RolloutPod)
    requires c.Valid() && Inv(c, s) && Next(c, s, a, t) && PodStep(a)
    requires s.template == c.newRevision && StillNew(c, s, p)
    ensures StillNew(c, t, p)
  {
  }

  lemma PodStepInv(c: Setting, s: State, a: Action, t: State)
    requires c.Valid() && Inv(c, s) && Next(c, s, a, t) && PodStep(a)
    ensures Inv(c, t)
  {
    PodStepPods(c, s, a, t);
    if s.op.HasPods? && InProgress(s.op.sts) {
      forall i | 0 <= i < |s.op.listing| ensures StillNew(c, t, s.op.listing[i]) {
        assert StillNew(c, s, s.op.listing[i]);
        PodStepStillNew(c, s, a, t, s.op.listing[i]);
      }
    }
  }

  lemma ControlStepInv(c: Setting, s: State, a: Action, t: State)
    requires c.Valid() && Inv(c, s) && Next(c, s, a, t)
    requires a.WriteSpec? || a.GetSts? || a.Abandon? || a.Observe? || a.Complete?
    ensures Inv(c, t)
  {
    if a.Complete? && Rolling(c, s) {
      CompleteAtZero(c, s, t);
    }
    if s.op.HasPods? && InProgress(s.op.sts) && t.op == s.op {
      forall i | 0 <= i < |s.op.listing| ensures StillNew(c, t, s.op.listing[i]) {
        assert StillNew(c, s, s.op.listing[i]);
      }
    }
  }

  /** Every step keeps the invariant. */
  lemma NextInv(c: Setting, s: State, a: Action, t: State)
    requires c.Valid() && Inv(c, s) && Next(c, s, a, t)
    ensures Inv(c, t)
  {
    match a
    case Act(spec, riak) => ActInv(c, s, spec, riak, t);
    case ListPods(api, listing) =>
      ListStep(c, s, api, listing, t);
      ListInv(c, s, listing, t);
    case Kill(_) => PodStepInv(c, s, a, t);
    case Create(_) => PodStepInv(c, s, a, t);
    case SetReady(_, _) => PodStepInv(c, s, a, t);
    case Lose(_) => PodStepInv(c, s, a, t);
    case _ => ControlStepInv(c, s, a, t);
  }

  // ---------- whole runs ----------

  /** A run from before the template change: actions[i] leads from states[i] to states[i + 1]. */
  datatype Run = Run(states: seq<State>, actions: seq<Action>)

  ghost predicate IsRun(c: Setting, r: Run) {
    && c.Valid()
    && |r.states| == |r.actions| + 1
    && Init(c, r.states[0])
    && forall i :: 0 <= i < |r.actions| ==> Next(c, r.states[i], r.actions[i], r.states[i + 1])
  }

  lemma {:induction false} RunInv(c: Setting, r: Run, i: nat)
    requires IsRun(c, r) && i < |r.states|
    ensures Inv(c, r.states[i])
  {
    if i == 0 {
      InitInv(c, r.states[0]);
    } else {
      RunInv(c, r, i - 1);
      NextInv(c, r.states[i - 1], r.actions[i - 1], r.states[i]);
    }
  }

  /** In every state of every run, the only existing pod at or above the partition that can be
      off the update revision is the one at the partition itself, so the StatefulSet controller
      can be about to take at most that one node away. */
  lemma OneNodeAtATime(c: Setting, r: Run, i: nat)
    requires IsRun(c, r) && i < |r.states|
    ensures forall ord :: Killable(r.states[i], ord) ==> ord == r.states[i].partition
  {
    RunInv(c, r, i);
  }

  // ---------- one node away at a time ----------

  /** Nothing but the rollout takes nodes away: no pod is lost, none turns unready. */
  predicate Gentle(a: Action) { !a.Lose? && (a.SetReady? ==> a.ready) }

  predicate Up(s: State, ord: int) { ord in s.pods && s.pods[ord].ready }

  /** Every node but the one at the partition is there and Ready. */
  predicate OthersUp(c: Setting, s: State) {
    forall ord :: 0 <= ord < c.size && ord != s.partition ==> Up(s, ord)
  }

  /** A listed pod that was Ready and is not up for replacement is still up. */
  predicate StillUp(c: Setting, s: State, p: RolloutPod) {
    p.ready && (p.ordinal < s.partition || p.revision == c.newRevision) ==> Up(s, p.ordinal)
  }

  predicate ProperListing(c: Setting, listing: seq<RolloutPod>) {
    && (forall i :: 0 <= i < |listing| ==> 0 <= listing[i].ordinal < c.size)
    && Counting.Distinct(Ordinals(listing))
  }

  predicate UpInv(c: Setting, s: State) {
    && (Rolling(c, s) && s.partition < c.size ==> OthersUp(c, s))
    && (s.op.HasPods? ==> ProperListing(c, s.op.listing))
    && (s.op.HasPods? && InProgress(s.op.sts) ==>
          forall i :: 0 <= i < |s.op.listing| ==> StillUp(c, s, s.op.listing[i]))
  }

  /** What a release was decided on is still so when it lands. */
  lemma ReleaseUp(c: Setting, s: State, spec: Spec, riak: RiakReads, ord: int)
    requires c.Valid() && Inv(c, s) && UpInv(c, s) && s.op.HasPods? && spec.size == c.size
    requires Decide(spec, s.op.sts, s.op.listing, riak).Release? && 0 <= ord < c.size
    ensures Up(s, ord)
  {
    var listing := s.op.listing;
    ReleaseIff(spec, s.op.sts, listing, riak);
    Counting.DistinctCoversRange(Ordinals(listing), c.size);
    assert ord in Ordinals(listing);
    var k :| 0 <= k < |listing| && Ordinals(listing)[k] == ord;
    assert listing[k].ordinal == ord;
    ByOrdinalListed(listing, ord);
    var i :| 0 <= i < |listing| && listing[i] == ByOrdinal(listing)[ord];
    assert StillUp(c, s, listing[i]);
  }

  lemma PodStepUp(c: Setting, s: State, a: Action, t: State)
    requires c.Valid() && Inv(c, s) && UpInv(c, s) && Next(c, s, a, t) && PodStep(a) && Gentle(a)
    ensures UpInv(c, t)
  {
    if s.op.HasPods? && InProgress(s.op.sts) {
      forall i | 0 <= i < |s.op.listing| ensures StillUp(c, t, s.op.listing[i]) {
        assert StillUp(c, s, s.op.listing[i]) && StillNew(c, s, s.op.listing[i]);
      }
    }
    if Rolling(c, s) && s.partition < c.size {
      forall ord | 0 <= ord < c.size && ord != s.partition ensures Up(t, ord) { assert Up(s, ord); }
    }
  }

  lemma ListUp(c: Setting, s: State, listing: seq<RolloutPod>, t: State)
    requires c.Valid() && Inv(c, s) && UpInv(c, s)
    requires s.op.HasSts? && Covers(listing, s.pods) && t == s.(op := HasPods(s.op.sts, listing))
    ensures UpInv(c, t)
  {
    forall i | 0 <= i < |listing| ensures StillUp(c, t, listing[i]) && 0 <= listing[i].ordinal < c.size {
      assert listing[i].ordinal in s.pods;
    }
    if Rolling(c, s) && s.partition < c.size {
      forall ord | 0 <= ord < c.size && ord != s.partition ensures Up(t, ord) { assert Up(s, ord); }
    }
  }

  lemma SameUp(c: Setting, s: State, t: State)
    requires UpInv(c, s) && t.pods == s.pods && t.partition == s.partition && (t.op == s.op || !t.op.HasPods?)
    requires Rolling(c, t) && t.partition < c.size ==> Rolling(c, s)
    ensures UpInv(c, t)
  {
    if Rolling(c, t) && t.partition < c.size {
      forall ord | 0 <= ord < c.size && ord != s.partition ensures Up(t, ord) { assert Up(s, ord); }
    }
    if t.op.HasPods? && InProgress(t.op.sts) {
      forall i | 0 <= i < |t.op.listing| ensures StillUp(c, t, t.op.listing[i]) {
        assert StillUp(c, s, s.op.listing[i]);
      }
    }
  }

  lemma StepUp(c: Setting, s: State, a: Action, t: State)
    requires c.Valid() && Inv(c, s) && UpInv(c, s) && Next(c, s, a, t) && Gentle(a)
    ensures UpInv(c, t)
  {
    if PodStep(a) {
      PodStepUp(c, s, a, t);
    } else if a.ListPods? {
      ListStep(c, s, a.api, a.listing, t);
      ListUp(c, s, a.listing, t);
    } else if a.Act? && t.partition != s.partition {
      forall ord | 0 <= ord < c.size ensures Up(t, ord) { ReleaseUp(c, s, a.spec, a.riak, ord); }
    } else if a.WriteSpec? && t.partition != s.partition {
      assert !Rolling(c, s);
    } else {
      SameUp(c, s, t);
    }
  }

  lemma {:induction false} RunUp(c: Setting, r: Run, i: nat)
    requires IsRun(c, r) && i < |r.states| && forall k :: 0 <= k < i ==> Gentle(r.actions[k])
    ensures UpInv(c, r.states[i])
  {
    if i > 0 {
      RunUp(c, r, i - 1);
      RunInv(c, r, i - 1);
      StepUp(c, r.states[i - 1], r.actions[i - 1], r.states[i]);
    }
  }

  /** The rollout itself never has two nodes away: in every run in which nothing else takes nodes
      away, from the first release on every node but the one at the partition is there and Ready. */
  lemma OthersStayUp(c: Setting, r: Run, i: nat, ord: int)
    requires IsRun(c, r) && i < |r.states| && (forall k :: 0 <= k < i ==> Gentle(r.actions[k]))
    requires Rolling(c, r.states[i]) && r.states[i].partition < c.size
    requires 0 <= ord < c.size && ord != r.states[i].partition
    ensures ord in r.states[i].pods && r.states[i].pods[ord].ready
  {
    RunUp(c, r, i);
    assert Up(r.states[i], ord);
  }

  /** The listing the operator holds was taken earlier in the same reconcile, at the same partition. */
  lemma {:induction false} ListingTaken(c: Setting, r: Run, i: nat) returns (j: nat)
    requires IsRun(c, r) && i < |r.states| && r.states[i].op.HasPods?
    ensures j < i && r.actions[j].ListPods? && r.actions[j].listing == r.states[i].op.listing
    ensures r.states[j].op == HasSts(r.states[i].op.sts)
    ensures r.states[j].partition == r.states[i].partition
  {
    assert i > 0;
    assert Next(c, r.states[i - 1], r.actions[i - 1], r.states[i]);
    if r.actions[i - 1].ListPods? {
      j := i - 1;
    } else {
      j := ListingTaken(c, r, i - 1);
    }
  }

  /** As many listed pods as the size, with ordinals below it, are all of them. */
  lemma EveryOrdinalListed(c: Setting, listing: seq<RolloutPod>, pods: map<int, Pod>, ord: int)
    requires c.Valid() && Covers(listing, pods) && |listing| >= c.size
    requires forall ord :: ord in pods ==> 0 <= ord < c.size
    requires 0 <= ord < c.size
    ensures HasOrdinal(listing, ord) && ord in pods
  {
    var ordinals := seq(|listing|, i requires 0 <= i < |listing| => listing[i].ordinal);
    Counting.DistinctCoversRange(ordinals, c.size);
    assert ord in ordinals;
    var i :| 0 <= i < |ordinals| && ordinals[i] == ord;
    assert listing[i].ordinal == ord;
  }

  /** With every ordinal listed, riak-admin is asked on the seed pod. */
  lemma ProbeIsSeed(c: Setting, listing: seq<RolloutPod>, pods: map<int, Pod>)
    requires c.Valid() && Lists(listing, pods) && |listing| >= c.size
    requires forall ord :: ord in pods ==> 0 <= ord < c.size
    ensures PodOrdinal(Probe(listing)) == Some(0)
  {
    EveryOrdinalListed(c, listing, pods, 0);
    var i := ProbeIsLowest(listing);
    assert listing[i].ordinal in pods;
    assert listing[i].ordinal <= 0;
  }

  /** Every lowering of the partition, in any run, is by one, by a reconcile that is not paused,
      and on a snapshot taken earlier in that reconcile in which all ordinals exist and are Ready
      and all those released before are on the update revision; and for more than one node the
      seed reports a ring of exactly `size` members, all valid, with transfers idle unless the
      wait is off. */
  lemma LoweringIsGated(c: Setting, r: Run, i: nat) returns (j: nat, probe: string)
    requires IsRun(c, r) && i < |r.actions| && r.states[i + 1].partition < r.states[i].partition
    ensures j < i && r.actions[j].ListPods? && r.actions[i].Act?
    ensures r.states[j].partition == r.states[i].partition == r.states[i + 1].partition + 1
    ensures !(r.actions[i].spec.rollout.Some? && r.actions[i].spec.rollout.value.paused)
    ensures forall ord :: 0 <= ord < c.size ==> ord in r.states[j].pods && r.states[j].pods[ord].ready
    ensures forall ord :: r.states[j].partition <= ord < c.size ==> r.states[j].pods[ord].revision == c.newRevision
    ensures PodOrdinal(probe) == Some(0)
    ensures c.size > 1 ==> RingSettled(r.actions[i].spec, probe, r.actions[i].riak)
  {
    LoweringIsAct(c, r, i);
    var s := r.states[i];
    j := ListingTaken(c, r, i);
    ListingShows(c, r, j);
    probe := Probe(s.op.listing);
    ReleaseIff(r.actions[i].spec, s.op.sts, s.op.listing, r.actions[i].riak);
    ProbeIsSeed(c, s.op.listing, r.states[j].pods);
    NoNameNoOrdinal();
    SnapshotComplete(c, s.op.listing, r.states[j].pods, s.partition);
  }

  lemma NoNameNoOrdinal()
    ensures PodOrdinal("").None?
  {
    assert LastDash("") == -1;
  }

  /** Only a reconcile that decides to release lowers the partition. */
  lemma LoweringIsAct(c: Setting, r: Run, i: nat)
    requires IsRun(c, r) && i < |r.actions| && r.states[i + 1].partition < r.states[i].partition
    ensures var s, a := r.states[i], r.actions[i];
            && a.Act? && s.op.HasPods? && a.spec.size == c.size && Inv(c, s)
            && Decide(a.spec, s.op.sts, s.op.listing, a.riak) == Release(s.partition - 1)
            && InProgress(s.op.sts) && s.op.sts.updateRevision == c.newRevision && LivePartition(s.op.sts) == s.partition
            && r.states[i + 1].partition == s.partition - 1
  {
    RunInv(c, r, i);
    var s, a, t := r.states[i], r.actions[i], r.states[i + 1];
    assert Next(c, s, a, t);
    PartitionFalls(c, s, a, t);
  }

  lemma PartitionFalls(c: Setting, s: State, a: Action, t: State)
    requires c.Valid() && Inv(c, s) && Next(c, s, a, t) && t.partition < s.partition
    ensures a.Act? && s.op.HasPods? && Decide(a.spec, s.op.sts, s.op.listing, a.riak) == Release(s.partition - 1)
    ensures InProgress(s.op.sts) && s.op.sts.updateRevision == c.newRevision && LivePartition(s.op.sts) == s.partition
  {
    if a.Act? {
      ReleaseIff(a.spec, s.op.sts, s.op.listing, a.riak);
    }
  }

  lemma ListingShows(c: Setting, r: Run, j: nat)
    requires IsRun(c, r) && j < |r.actions| && r.actions[j].ListPods?
    ensures Inv(c, r.states[j]) && Lists(r.actions[j].listing, r.states[j].pods)
  {
    RunInv(c, r, j);
    ListStep(c, r.states[j], r.actions[j].api, r.actions[j].listing, r.states[j + 1]);
  }

  /** A complete, ready listing whose released pods are finished describes the pods that way. */
  lemma SnapshotComplete(c: Setting, listing: seq<RolloutPod>, pods: map<int, Pod>, partition: int)
    requires c.Valid() && Covers(listing, pods) && |listing| >= c.size && partition >= 0
    requires forall ord :: ord in pods ==> 0 <= ord < c.size
    requires forall i :: 0 <= i < |listing| ==> listing[i].ready
    requires AllFinished(ByOrdinal(listing), partition, c.size, c.newRevision)
    ensures forall ord :: 0 <= ord < c.size ==> ord in pods && pods[ord].ready
    ensures forall ord :: partition <= ord < c.size ==> ord in pods && pods[ord].revision == c.newRevision
  {
    forall ord | 0 <= ord < c.size ensures ord in pods && pods[ord].ready {
      EveryOrdinalListed(c, listing, pods, ord);
    }
    forall ord | partition <= ord < c.size
      ensures ord in pods && pods[ord].revision == c.newRevision
    {
      ByOrdinalListed(listing, ord);
      assert ByOrdinal(listing)[ord] in listing;
    }
  }

  /** The partitions reached by lowering, in order: the ordinals released for restart. */
  function Releases(states: seq<State>): seq<int> {
    if |states| <= 1 then []
    else
      var n := |states| - 1;
      Releases(states[..n]) +
      (if states[n].partition < states[n - 1].partition then [states[n].partition] else [])
  }

  /** size - 1, size - 2, ... for the first n ordinals from the top. */
  predicate CountsDown(c: Setting, released: seq<int>, n: int) {
    |released| == n && forall k :: 0 <= k < n ==> released[k] == c.size - 1 - k
  }

  /** How many ordinals the phase of a state says have been released. */
  function ReleasedSoFar(c: Setting, s: State): int {
    if s.update != c.newRevision then 0
    else if s.current == c.newRevision then c.size
    else c.size - s.partition
  }

  lemma StepReleases(c: Setting, s: State, a: Action, t: State)
    requires c.Valid() && Inv(c, s) && Next(c, s, a, t)
    ensures t.partition < s.partition ==> t.partition == s.partition - 1 && Rolling(c, s)
    ensures ReleasedSoFar(c, t) == ReleasedSoFar(c, s) + (if t.partition < s.partition then 1 else 0)
  {
    NextInv(c, s, a, t);
    if a.Act? {
      ActInv(c, s, a.spec, a.riak, t);
    } else if a.Complete? && Rolling(c, s) {
      CompleteAtZero(c, s, t);
    }
  }

  /** What step i of a run releases. */
  lemma RunReleases(c: Setting, r: Run, i: nat)
    requires IsRun(c, r) && i < |r.actions|
    ensures var s, t := r.states[i], r.states[i + 1];
            && (t.partition < s.partition ==> t.partition == s.partition - 1 && Rolling(c, s))
            && ReleasedSoFar(c, t) == ReleasedSoFar(c, s) + (if t.partition < s.partition then 1 else 0)
  {
    RunInv(c, r, i);
    StepReleases(c, r.states[i], r.actions[i], r.states[i + 1]);
  }

  lemma ReleasesSnoc(states: seq<State>, i: nat)
    requires 0 < i < |states|
    ensures Releases(states[..i + 1]) ==
            Releases(states[..i]) + (if states[i].partition < states[i - 1].partition then [states[i].partition] else [])
  {
    assert states[..i + 1][..i] == states[..i];
  }

  lemma {:induction false} CountDownTo(c: Setting, r: Run, i: nat)
    requires IsRun(c, r) && i < |r.states|
    ensures CountsDown(c, Releases(r.states[..i + 1]), ReleasedSoFar(c, r.states[i]))
  {
    if i > 0 {
      CountDownTo(c, r, i - 1);
      RunReleases(c, r, i - 1);
      ReleasesSnoc(r.states, i);
    }
  }

  /** In any run the ordinals released are size - 1, size - 2, ..., down to the seed 0 at most:
      each once, in that order, as many as the partition has come down. */
  lemma ReleasesCountDown(c: Setting, r: Run)
    requires IsRun(c, r)
    ensures CountsDown(c, Releases(r.states), ReleasedSoFar(c, r.states[|r.states| - 1]))
    ensures |Releases(r.states)| <= c.size
  {
    var n := |r.states| - 1;
    RunInv(c, r, n);
    CountDownTo(c, r, n);
    assert r.states[..n + 1] == r.states;
  }

  /** Until the operator has released a node, no pod is up for replacement: the template change
      restarts nothing by itself. */
  lemma NothingRestartsBeforeRelease(c: Setting, r: Run)
    requires IsRun(c, r) && Releases(r.states) == []
    ensures var s := r.states[|r.states| - 1]; forall ord :: !Killable(s, ord)
  {
    RunInv(c, r, |r.states| - 1);
    ReleasesCountDown(c, r);
  }

  /** While the rollout runs the partition never rises; outside it, the spec is written with the
      partition held at the size, before the change and again after completion. */
  lemma PartitionWithinRollout(c: Setting, s: State, a: Action, t: State)
    requires c.Valid() && Inv(c, s) && Next(c, s, a, t)
    ensures Rolling(c, s) ==> s.partition - 1 <= t.partition <= s.partition
    ensures t.partition > s.partition ==> a.WriteSpec? && t.partition == c.size
    ensures a.WriteSpec? && !InProgress(s.View()) ==> t.partition == c.size
    ensures s.current == c.newRevision ==> !InProgress(s.View())
  {
    StepReleases(c, s, a, t);
  }
}
