/** The rollout cannot get stuck for good: from every state of every run there is a way on to
    completion, provided pods can become ready and the ring can settle. */
module RolloutProgress {
  import opened Text
  import opened Rollout
  import opened RolloutProtocol
  import Counting

  // ---------- ways from state to state ----------

  /** No pod is lost or turns unready, no reconcile breaks off, and whoever decides finds the rollout
      not paused and the ring settled. */
  predicate Undisturbed(s: State, a: Action) {
    match a
    case Lose(_) => false
    case SetReady(_, ready) => ready
    case Abandon => s.op == Operator.Idle
    case Act(spec, riak) => s.op.HasPods? && !spec.Paused() && (spec.size == 1 || RingSettled(spec, Probe(s.op.listing), riak))
    case _ => true
  }

  ghost predicate IsPath(c: Setting, r: Run) {
    && |r.states| == |r.actions| + 1
    && forall i :: 0 <= i < |r.actions| ==>
         Next(c, r.states[i], r.actions[i], r.states[i + 1]) && Undisturbed(r.states[i], r.actions[i])
  }

  ghost predicate Joins(c: Setting, r: Run, s: State, t: State) {
    IsPath(c, r) && r.states[0] == s && r.states[|r.states| - 1] == t
  }

  /** There are undisturbed steps from s to t. */
  ghost predicate Leads(c: Setting, s: State, t: State) {
    exists r :: Joins(c, r, s, t)
  }

  lemma LeadsSame(c: Setting, s: State)
    ensures Leads(c, s, s)
  {
    assert Joins(c, Run([s], []), s, s);
  }

  lemma LeadsOn(c: Setting, s: State, t: State, a: Action, u: State)
    requires Leads(c, s, t) && Next(c, t, a, u) && Undisturbed(t, a)
    ensures Leads(c, s, u)
  {
    var r :| Joins(c, r, s, t);
    var r' := Run(r.states + [u], r.actions + [a]);
    forall i | 0 <= i < |r'.actions|
      ensures Next(c, r'.states[i], r'.actions[i], r'.states[i + 1]) && Undisturbed(r'.states[i], r'.actions[i])
    {
      if i < |r.actions| {
        assert Next(c, r.states[i], r.actions[i], r.states[i + 1]);
      }
    }
    assert Joins(c, r', s, u);
  }

  lemma {:induction false} PathKeepsInv(c: Setting, r: Run, i: nat)
    requires c.Valid() && IsPath(c, r) && i < |r.states| && Inv(c, r.states[0])
    ensures Inv(c, r.states[i])
  {
    if i > 0 {
      PathKeepsInv(c, r, i - 1);
      NextInv(c, r.states[i - 1], r.actions[i - 1], r.states[i]);
    }
  }

  lemma LeadsInv(c: Setting, s: State, t: State)
    requires c.Valid() && Inv(c, s) && Leads(c, s, t)
    ensures Inv(c, t)
  {
    var r :| Joins(c, r, s, t);
    PathKeepsInv(c, r, |r.states| - 1);
  }

  // ---------- the way on ----------

  /** The pod exists, is ready, and is on the revision its side of the partition is due. */
  predicate Finished(c: Setting, s: State, ord: int) {
    && ord in s.pods && s.pods[ord].ready
    && s.pods[ord].revision == (if ord >= s.partition then c.newRevision else c.oldRevision)
  }

  /** Between reconciles, with the rollout under way. */
  predicate Underway(c: Setting, s: State) {
    Inv(c, s) && Rolling(c, s) && s.op == Idle
  }

  predicate SameButPods(s: State, t: State) {
    t == s.(pods := t.pods)
  }

  /** A missing pod can be created and become ready. */
  lemma CreatePod(c: Setting, s: State, t: State, ord: int) returns (u: State)
    requires c.Valid() && Leads(c, s, t) && Underway(c, t) && 0 <= ord < c.size && ord !in t.pods
    ensures Leads(c, s, u) && SameButPods(t, u) && Finished(c, u, ord)
    ensures forall k :: k != ord && Finished(c, t, k) ==> Finished(c, u, k)
  {
    var t1 := t.(pods := t.pods[ord := Pod(if ord < t.partition then t.current else t.template, false)]);
    LeadsOn(c, s, t, Create(ord), t1);
    u := t1.(pods := t1.pods[ord := t1.pods[ord].(ready := true)]);
    LeadsOn(c, s, t1, SetReady(ord, true), u);
  }

  /** Any pod can be brought where it is due. */
  lemma FinishPod(c: Setting, s: State, t: State, ord: int) returns (u: State)
    requires c.Valid() && Leads(c, s, t) && Underway(c, t) && 0 <= ord < c.size
    ensures Leads(c, s, u) && SameButPods(t, u) && Finished(c, u, ord)
    ensures forall k :: k != ord && Finished(c, t, k) ==> Finished(c, u, k)
  {
    if ord !in t.pods {
      u := CreatePod(c, s, t, ord);
    } else if Killable(t, ord) {
      var t1 := t.(pods := t.pods - {ord});
      LeadsOn(c, s, t, Kill(ord), t1);
      NextInv(c, t, Kill(ord), t1);
      u := CreatePod(c, s, t1, ord);
    } else {
      u := t.(pods := t.pods[ord := t.pods[ord].(ready := true)]);
      LeadsOn(c, s, t, SetReady(ord, true), u);
    }
  }

  lemma {:induction false} FinishPods(c: Setting, s: State, t: State, n: nat) returns (u: State)
    requires c.Valid() && Inv(c, s) && Leads(c, s, t) && Underway(c, t) && n <= c.size
    ensures Leads(c, s, u) && SameButPods(t, u) && Underway(c, u)
    ensures forall ord :: 0 <= ord < n ==> Finished(c, u, ord)
  {
    if n == 0 {
      u := t;
    } else {
      var v := FinishPods(c, s, t, n - 1);
      u := FinishPod(c, s, v, n - 1);
      LeadsInv(c, s, u);
    }
  }

  /** The API entries of the pods, in order. */
  function ApiOf(c: Setting, pods: map<int, Pod>): seq<ApiPod>
    requires c.Valid() && forall ord :: 0 <= ord < c.size ==> ord in pods
  {
    seq(c.size, i requires 0 <= i < c.size => ApiPod(PodName(c.cluster, i), false, pods[i].revision, pods[i].ready))
  }

  lemma CoversAll(c: Setting, listing: seq<RolloutPod>, pods: map<int, Pod>)
    requires c.Valid() && Covers(listing, pods) && forall ord :: ord in pods <==> 0 <= ord < c.size
    ensures |listing| == c.size
  {
    var ordinals := Ordinals(listing);
    forall ord ensures ord in Counting.Elements(ordinals) <==> ord in Counting.Range(c.size) {
      if 0 <= ord < c.size {
        assert HasOrdinal(listing, ord);
        var i :| 0 <= i < |listing| && listing[i].ordinal == ord;
        assert ordinals[i] == ord;
      }
    }
    assert Counting.Elements(ordinals) == Counting.Range(c.size);
    Counting.DistinctCount(ordinals);
    Counting.RangeCount(c.size);
  }

  lemma NamesDiffer(cluster: string, i: nat, j: nat)
    requires i < j <= MAX_INT32
    ensures PodName(cluster, i) != PodName(cluster, j)
  {
    OrdinalOfPodName(cluster, i);
    OrdinalOfPodName(cluster, j);
  }

  lemma ApiOfShows(c: Setting, pods: map<int, Pod>)
    requires c.Valid() && forall ord :: ord in pods <==> 0 <= ord < c.size
    ensures ApiShows(c, ApiOf(c, pods), pods)
  {
    var api := ApiOf(c, pods);
    forall i | 0 <= i < |api| ensures i in pods && ShowsPod(c, api[i], i, pods[i]) { }
    forall i, j | 0 <= i < j < |api| ensures api[i].name != api[j].name {
      NamesDiffer(c.cluster, i, j);
    }
    forall ord | ord in pods ensures exists i :: 0 <= i < |api| && ShowsPod(c, api[i], ord, pods[ord]) {
      assert ShowsPod(c, api[ord], ord, pods[ord]);
    }
  }

  /** The API can show the pods, and the operator then lists them all. */
  lemma ListAll(c: Setting, pods: map<int, Pod>) returns (api: seq<ApiPod>, listing: seq<RolloutPod>)
    requires c.Valid() && forall ord :: ord in pods <==> 0 <= ord < c.size
    ensures ApiShows(c, api, pods) && listing == AllListed(api) && Lists(listing, pods) && |listing| == c.size
  {
    api := ApiOf(c, pods);
    ApiOfShows(c, pods);
    listing := AllListed(api);
    ShowsLists(c, api, pods);
    CoversAll(c, listing, pods);
  }

  /** The operator's decision on a complete listing, with a settled ring. */
  lemma DecidesToRelease(c: Setting, s: State, sts: Sts, listing: seq<RolloutPod>, spec: Spec, riak: RiakReads)
    requires c.Valid() && Inv(c, s) && Rolling(c, s) && s.partition > 0
    requires InProgress(sts) && LivePartition(sts) == s.partition && sts.updateRevision == c.newRevision
    requires forall ord :: 0 <= ord < c.size ==> Finished(c, s, ord)
    requires Covers(listing, s.pods) && |listing| == c.size
    requires spec.size == c.size && !spec.Paused() && (spec.size == 1 || RingSettled(spec, Probe(listing), riak))
    ensures Decide(spec, sts, listing, riak) == Release(s.partition - 1)
  {
    var found := ByOrdinal(listing);
    forall ord | s.partition <= ord < c.size
      ensures ord in found && found[ord].revision == c.newRevision && found[ord].ready
    {
      assert Finished(c, s, ord);
      assert HasOrdinal(listing, ord);
      ByOrdinalListed(listing, ord);
      var i :| 0 <= i < |listing| && listing[i] == found[ord];
    }
    forall i | 0 <= i < |listing| ensures listing[i].ready {
      assert Finished(c, s, listing[i].ordinal);
    }
    ReleaseIff(spec, sts, listing, riak);
  }

  /** The reads of one reconcile, with nothing happening in between. */
  lemma ReadAll(c: Setting, s: State, t: State, api: seq<ApiPod>, listing: seq<RolloutPod>)
    requires c.Valid() && Leads(c, s, t) && Underway(c, t) && ApiShows(c, api, t.pods) && listing == AllListed(api)
    ensures Leads(c, s, t.(op := HasPods(t.View(), listing)))
  {
    var t1, t2 := t.(op := SpecWritten), t.(op := HasSts(t.View()));
    LeadsOn(c, s, t, WriteSpec(t.template), t1);
    LeadsOn(c, s, t1, GetSts, t2);
    LeadsOn(c, s, t2, ListPods(api, listing), t.(op := HasPods(t.View(), listing)));
  }

  lemma ActStep(c: Setting, t: State, listing: seq<RolloutPod>, spec: Spec, riak: RiakReads)
    requires c.Valid() && Underway(c, t) && t.partition > 0
    requires forall ord :: 0 <= ord < c.size ==> Finished(c, t, ord)
    requires Covers(listing, t.pods) && |listing| == c.size
    requires spec.size == c.size && !spec.Paused() && forall probe :: RingSettled(spec, probe, riak)
    ensures Next(c, t.(op := HasPods(t.View(), listing)), Act(spec, riak), t.(partition := t.partition - 1))
    ensures Undisturbed(t.(op := HasPods(t.View(), listing)), Act(spec, riak))
  {
    assert RingSettled(spec, Probe(listing), riak);
    DecidesToRelease(c, t, t.View(), listing, spec, riak);
  }

  /** With everything finished, one reconcile releases the next pod. */
  lemma ReleaseNext(c: Setting, s: State, t: State, spec: Spec, riak: RiakReads) returns (u: State)
    requires c.Valid() && Inv(c, s) && Leads(c, s, t) && Underway(c, t) && t.partition > 0
    requires forall ord :: 0 <= ord < c.size ==> Finished(c, t, ord)
    requires spec.size == c.size && !spec.Paused() && forall probe :: RingSettled(spec, probe, riak)
    ensures Leads(c, s, u) && Underway(c, u) && u.partition == t.partition - 1
  {
    forall ord | 0 <= ord < c.size ensures ord in t.pods { assert Finished(c, t, ord); }
    var api, listing := ListAll(c, t.pods);
    ReadAll(c, s, t, api, listing);
    u := t.(partition := t.partition - 1);
    ActStep(c, t, listing, spec, riak);
    LeadsOn(c, s, t.(op := HasPods(t.View(), listing)), Act(spec, riak), u);
    LeadsInv(c, s, u);
  }

  /** A waiting rollout can be carried through. */
  lemma {:induction false} FinishRollout(c: Setting, s: State, t: State, spec: Spec, riak: RiakReads) returns (u: State)
    requires c.Valid() && Inv(c, s) && Leads(c, s, t) && Underway(c, t)
    requires spec.size == c.size && !spec.Paused() && forall probe :: RingSettled(spec, probe, riak)
    ensures Leads(c, s, u) && u.current == c.newRevision && u.op == Operator.Idle
    ensures forall ord :: 0 <= ord < c.size ==> ord in u.pods && u.pods[ord] == Pod(c.newRevision, true)
    decreases t.partition
  {
    var v := FinishPods(c, s, t, c.size);
    if v.partition > 0 {
      var w := ReleaseNext(c, s, v, spec, riak);
      u := FinishRollout(c, s, w, spec, riak);
    } else {
      u := v.(current := v.update);
      forall ord | 0 <= ord < c.size ensures ord in v.pods && v.pods[ord] == Pod(c.newRevision, true) {
        assert Finished(c, v, ord);
      }
      LeadsOn(c, s, v, Complete, u);
    }
  }

  /** From every state of every run after the template change, whatever has been lost, killed or
      abandoned, once the reconcile under way is over undisturbed steps lead on to a completed rollout
      with every pod ready on the new revision. */
  lemma RolloutCanAlwaysFinish(c: Setting, r: Run, i: nat, spec: Spec, riak: RiakReads) returns (u: State)
    requires IsRun(c, r) && i < |r.states| && r.states[i].template == c.newRevision
    requires r.states[i].current == c.oldRevision
    requires spec.size == c.size && !spec.Paused() && forall probe :: RingSettled(spec, probe, riak)
    ensures Next(c, r.states[i], Abandon, r.states[i].(op := Operator.Idle))
    ensures Leads(c, r.states[i].(op := Operator.Idle), u) && u.current == c.newRevision
    ensures forall ord :: 0 <= ord < c.size ==> ord in u.pods && u.pods[ord] == Pod(c.newRevision, true)
  {
    var s := r.states[i].(op := Operator.Idle);
    RunInv(c, r, i);
    NextInv(c, r.states[i], Abandon, s);
    LeadsSame(c, s);
    var v := s.(update := s.template);
    LeadsOn(c, s, s, Observe, v);
    LeadsInv(c, s, v);
    u := FinishRollout(c, s, v, spec, riak);
  }
}
