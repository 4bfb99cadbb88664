/** The rollout does finish: in every run in which the actors keep doing their part, and which is
    left undisturbed from some point on, the rolling restart completes. */
module RolloutFairness {
  import opened Text
  import opened Rollout
  import opened RolloutProtocol
  import opened RolloutProgress
  import opened Counting

  // ---------- runs without end ----------

  /** action(i) leads from state(i) to state(i + 1). */
  datatype Endless = Endless(state: nat -> State, action: nat -> Action)

  ghost predicate Steps(c: Setting, e: Endless, i: nat) {
    Next(c, e.state(i), e.action(i), e.state(i + 1))
  }

  ghost predicate IsEndless(c: Setting, e: Endless) {
    c.Valid() && Init(c, e.state(0)) && forall i: nat :: Steps(c, e, i)
  }

  predicate CalmAt(e: Endless, i: nat) { Undisturbed(e.state(i), e.action(i)) }

  ghost predicate CalmFrom(e: Endless, start: nat) {
    forall i: nat :: i >= start ==> CalmAt(e, i)
  }

  /** What the actors owe the rollout. */
  datatype Duty = Observing | Killing(ord: int) | Creating(ord: int) | BecomingReady(ord: int) | Completing | Operating

  predicate Due(c: Setting, s: State, duty: Duty) {
    match duty
    case Observing => s.update != s.template
    case Killing(ord) => Killable(s, ord)
    case Creating(ord) => 0 <= ord < c.size && ord !in s.pods
    case BecomingReady(ord) => ord in s.pods && !s.pods[ord].ready
    case Completing =>
      && s.update == s.template && s.current != s.update
      && forall ord :: 0 <= ord < c.size ==> ord in s.pods && s.pods[ord] == Pod(s.update, true)
    case Operating => true
  }

  predicate OperatorStep(a: Action) { a.WriteSpec? || a.GetSts? || a.ListPods? || a.Act? }

  predicate Does(a: Action, duty: Duty) {
    match duty
    case Observing => a == Observe
    case Killing(ord) => a == Kill(ord)
    case Creating(ord) => a == Create(ord)
    case BecomingReady(ord) => a == SetReady(ord, true)
    case Completing => a == Complete
    case Operating => OperatorStep(a)
  }

  ghost predicate Served(c: Setting, e: Endless, duty: Duty, from: nat, i: nat) {
    i >= from && (!Due(c, e.state(i), duty) || Does(e.action(i), duty))
  }

  ghost predicate IsServed(c: Setting, e: Endless, duty: Duty, from: nat) {
    exists i: nat :: Served(c, e, duty, from, i)
  }

  /** Nothing that stays due is left undone for ever. */
  ghost predicate Fair(c: Setting, e: Endless) {
    forall duty: Duty, from: nat :: IsServed(c, e, duty, from)
  }

  lemma NextServed(c: Setting, e: Endless, duty: Duty, from: nat) returns (i: nat)
    requires Fair(c, e)
    ensures i >= from && (Due(c, e.state(i), duty) ==> Does(e.action(i), duty))
  {
    assert IsServed(c, e, duty, from);
    i :| Served(c, e, duty, from, i);
  }

  lemma {:induction false} EndlessInv(c: Setting, e: Endless, i: nat)
    requires IsEndless(c, e)
    ensures Inv(c, e.state(i))
  {
    if i == 0 {
      InitInv(c, e.state(0));
    } else {
      EndlessInv(c, e, i - 1);
      assert Steps(c, e, i - 1);
      NextInv(c, e.state(i - 1), e.action(i - 1), e.state(i));
    }
  }

  // ---------- what is left to do ----------

  /** How many steps a pod is away from being where it is due. */
  function Weight(c: Setting, s: State, ord: int): nat {
    if ord !in s.pods then 2
    else if ord >= s.partition && s.pods[ord].revision != c.newRevision then 3
    else if !s.pods[ord].ready then 1
    else 0
  }

  predicate Completed(c: Setting, s: State) {
    && s.current == c.newRevision
    && forall ord :: 0 <= ord < c.size ==> ord in s.pods && s.pods[ord] == Pod(c.newRevision, true)
  }

  /** No pod is further from being finished. */
  predicate NoHeavier(c: Setting, s: State, t: State) {
    forall ord :: 0 <= ord < c.size ==> Weight(c, t, ord) <= Weight(c, s, ord)
  }

  /** Nothing was lost from s to t: the rollout completed, or released a node, or goes on. */
  predicate Ahead(c: Setting, s: State, t: State) {
    || Completed(c, t)
    || (Rolling(c, t) && t.partition < s.partition)
    || (Rolling(c, t) && t.partition == s.partition && NoHeavier(c, s, t))
  }

  lemma PodStepAhead(c: Setting, s: State, a: Action, t: State)
    requires c.Valid() && Inv(c, s) && Rolling(c, s) && Next(c, s, a, t) && Undisturbed(s, a)
    requires PodStep(a)
    ensures Rolling(c, t) && t.partition == s.partition && NoHeavier(c, s, t)
  {
  }

  lemma CompleteStepAhead(c: Setting, s: State, t: State)
    requires c.Valid() && Inv(c, s) && Rolling(c, s) && Next(c, s, Complete, t)
    ensures Completed(c, t)
  {
  }

  lemma StepAhead(c: Setting, s: State, a: Action, t: State)
    requires c.Valid() && Inv(c, s) && Rolling(c, s) && Next(c, s, a, t) && Undisturbed(s, a)
    ensures Ahead(c, s, t)
  {
    if PodStep(a) {
      PodStepAhead(c, s, a, t);
    } else if a.Complete? {
      CompleteStepAhead(c, s, t);
    } else if a.Act? {
      ActInv(c, s, a.spec, a.riak, t);
      assert t.pods == s.pods;
    } else {
      assert t.pods == s.pods && t.partition == s.partition;
    }
  }

  lemma CompletedStays(c: Setting, s: State, a: Action, t: State)
    requires c.Valid() && Inv(c, s) && Completed(c, s) && Next(c, s, a, t) && Undisturbed(s, a)
    ensures Completed(c, t)
  {
  }

  lemma AheadChain(c: Setting, s: State, t: State, u: State)
    requires c.Valid() && Ahead(c, s, t) && Rolling(c, t) && Ahead(c, t, u)
    ensures Ahead(c, s, u)
  {
    if t.partition == s.partition && u.partition == t.partition && !Completed(c, u) {
      forall ord | 0 <= ord < c.size ensures Weight(c, u, ord) <= Weight(c, s, ord) {
        assert Weight(c, u, ord) <= Weight(c, t, ord) <= Weight(c, s, ord);
      }
    }
  }

  /** While nothing disturbs it, the rollout only moves ahead. */
  lemma {:induction false} RunAhead(c: Setting, e: Endless, start: nat, i: nat, j: nat)
    requires IsEndless(c, e) && CalmFrom(e, start) && start <= i <= j && Rolling(c, e.state(i))
    ensures Ahead(c, e.state(i), e.state(j))
    decreases j - i
  {
    if i < j {
      RunAhead(c, e, start, i, j - 1);
      EndlessInv(c, e, j - 1);
      assert Steps(c, e, j - 1) && CalmAt(e, j - 1);
      if Completed(c, e.state(j - 1)) {
        CompletedStays(c, e.state(j - 1), e.action(j - 1), e.state(j));
      } else {
        StepAhead(c, e.state(j - 1), e.action(j - 1), e.state(j));
        AheadChain(c, e.state(i), e.state(j - 1), e.state(j));
      }
    }
  }

  // ---------- every pod gets where it is due ----------

  /** The step a pod is waiting for. */
  function DutyFor(c: Setting, s: State, ord: int): Duty {
    match Weight(c, s, ord)
    case 3 => Killing(ord)
    case 2 => Creating(ord)
    case _ => BecomingReady(ord)
  }

  lemma DutyIsDue(c: Setting, s: State, ord: int)
    requires c.Valid() && Inv(c, s) && Rolling(c, s) && 0 <= ord < c.size && Weight(c, s, ord) > 0
    ensures Due(c, s, DutyFor(c, s, ord))
  {
  }

  lemma DutyLightens(c: Setting, s: State, a: Action, t: State, ord: int)
    requires c.Valid() && Inv(c, s) && Rolling(c, s) && 0 <= ord < c.size && Weight(c, s, ord) > 0
    requires Next(c, s, a, t) && Does(a, DutyFor(c, s, ord))
    ensures Rolling(c, t) && t.partition == s.partition && Weight(c, t, ord) < Weight(c, s, ord)
  {
  }

  /** The next moment at which a pod has come closer, unless the rollout has moved on. */
  lemma Lighter(c: Setting, e: Endless, start: nat, i: nat, ord: int) returns (j: nat)
    requires IsEndless(c, e) && CalmFrom(e, start) && Fair(c, e) && i >= start && Rolling(c, e.state(i))
    requires 0 <= ord < c.size && Weight(c, e.state(i), ord) > 0
    ensures j >= i && Ahead(c, e.state(i), e.state(j))
    ensures var s, t := e.state(i), e.state(j);
            Completed(c, t) || t.partition < s.partition || Weight(c, t, ord) < Weight(c, s, ord)
  {
    var duty := DutyFor(c, e.state(i), ord);
    var k := NextServed(c, e, duty, i);
    RunAhead(c, e, start, i, k);
    j := k;
    var s, t := e.state(i), e.state(k);
    if !Completed(c, t) && t.partition == s.partition && Weight(c, t, ord) == Weight(c, s, ord) {
      EndlessInv(c, e, k);
      DutyIsDue(c, t, ord);
      assert Steps(c, e, k);
      DutyLightens(c, t, e.action(k), e.state(k + 1), ord);
      RunAhead(c, e, start, i, k + 1);
      j := k + 1;
    }
  }

  lemma {:induction false} PodFinishes(c: Setting, e: Endless, start: nat, i: nat, ord: int) returns (j: nat)
    requires IsEndless(c, e) && CalmFrom(e, start) && Fair(c, e) && i >= start && Rolling(c, e.state(i))
    requires 0 <= ord < c.size
    ensures j >= i && Ahead(c, e.state(i), e.state(j))
    ensures var s, t := e.state(i), e.state(j);
            Completed(c, t) || t.partition < s.partition || Weight(c, t, ord) == 0
    decreases Weight(c, e.state(i), ord)
  {
    if Weight(c, e.state(i), ord) == 0 {
      j := i;
    } else {
      var k := Lighter(c, e, start, i, ord);
      j := k;
      var s, t := e.state(i), e.state(k);
      if !Completed(c, t) && t.partition == s.partition {
        j := PodFinishes(c, e, start, k, ord);
        AheadChain(c, s, t, e.state(j));
      }
    }
  }

  lemma {:induction false} PodsFinish(c: Setting, e: Endless, start: nat, i: nat, n: nat) returns (j: nat)
    requires IsEndless(c, e) && CalmFrom(e, start) && Fair(c, e) && i >= start && Rolling(c, e.state(i))
    requires n <= c.size
    ensures j >= i && Ahead(c, e.state(i), e.state(j))
    ensures var s, t := e.state(i), e.state(j);
            Completed(c, t) || t.partition < s.partition || forall ord :: 0 <= ord < n ==> Weight(c, t, ord) == 0
  {
    if n == 0 {
      j := i;
    } else {
      var k := PodsFinish(c, e, start, i, n - 1);
      j := k;
      var s, t := e.state(i), e.state(k);
      if !Completed(c, t) && t.partition == s.partition {
        j := PodFinishes(c, e, start, k, n - 1);
        AheadChain(c, s, t, e.state(j));
      }
    }
  }

  // ---------- and then the operator releases the next node ----------

  predicate AllDone(c: Setting, s: State) {
    forall ord :: 0 <= ord < c.size ==> Weight(c, s, ord) == 0
  }

  /** Between two releases: every pod is where it is due. */
  predicate Waits(c: Setting, s: State) {
    Inv(c, s) && Rolling(c, s) && AllDone(c, s) && s.partition > 0
  }

  /** How many operator steps a release is away. A reconcile that began too early has to end first. */
  function Rank(s: State): nat {
    match s.op
    case Idle => 4
    case SpecWritten => 3
    case HasSts(sts) => if InProgress(sts) then 2 else 6
    case HasPods(sts, listing) => if InProgress(sts) && Lists(listing, s.pods) then 1 else 5
  }

  lemma WaitingIsFinished(c: Setting, s: State)
    requires c.Valid() && Waits(c, s)
    ensures forall ord :: 0 <= ord < c.size ==> Finished(c, s, ord)
  {
    forall ord | 0 <= ord < c.size ensures Finished(c, s, ord) {
      assert Weight(c, s, ord) == 0;
    }
  }

  lemma CompleteListing(c: Setting, s: State, listing: seq<RolloutPod>)
    requires c.Valid() && Waits(c, s) && Covers(listing, s.pods)
    ensures |listing| == c.size
  {
    WaitingIsFinished(c, s);
    forall ord ensures ord in s.pods <==> 0 <= ord < c.size {
      if 0 <= ord < c.size {
        assert Finished(c, s, ord);
      }
    }
    CoversAll(c, listing, s.pods);
  }

  /** A reconcile that read everything after the pods were finished releases the next node. */
  lemma FreshActReleases(c: Setting, s: State, a: Action, t: State)
    requires c.Valid() && Waits(c, s) && a.Act? && Next(c, s, a, t) && Undisturbed(s, a) && Rank(s) == 1
    ensures t.partition == s.partition - 1
  {
    WaitingIsFinished(c, s);
    CompleteListing(c, s, s.op.listing);
    DecidesToRelease(c, s, s.op.sts, s.op.listing, a.spec, a.riak);
  }

  lemma OperatorCloser(c: Setting, s: State, a: Action, t: State)
    requires c.Valid() && Waits(c, s) && Next(c, s, a, t) && Undisturbed(s, a) && OperatorStep(a)
    ensures t.partition < s.partition || (t.partition == s.partition && Rank(t) < Rank(s))
  {
    if a.Act? {
      ActInv(c, s, a.spec, a.riak, t);
      if Rank(s) == 1 {
        FreshActReleases(c, s, a, t);
      }
    } else if a.ListPods? {
      ListStep(c, s, a.api, a.listing, t);
    }
  }

  lemma WaitingPodsStay(c: Setting, s: State, a: Action, t: State)
    requires c.Valid() && Waits(c, s) && Next(c, s, a, t) && Undisturbed(s, a) && !OperatorStep(a)
    ensures t.pods == s.pods && t.op == s.op && t.partition == s.partition && Rolling(c, t)
  {
    WaitingIsFinished(c, s);
    forall ord | 0 <= ord < c.size ensures ord in s.pods && !Killable(s, ord) && s.pods[ord].ready {
      assert Finished(c, s, ord);
    }
    if a.Complete? {
      CompleteAtZero(c, s, t);
    }
  }

  /** While it waits, a step releases the next node, or comes no further from it; an operator's step
      comes closer. */
  lemma WaitStep(c: Setting, s: State, a: Action, t: State)
    requires c.Valid() && Waits(c, s) && Next(c, s, a, t) && Undisturbed(s, a)
    ensures Rolling(c, t)
    ensures t.partition < s.partition || (Waits(c, t) && t.partition == s.partition && Rank(t) <= Rank(s))
    ensures OperatorStep(a) ==> t.partition < s.partition || Rank(t) < Rank(s)
  {
    NextInv(c, s, a, t);
    if OperatorStep(a) {
      OperatorCloser(c, s, a, t);
    } else {
      WaitingPodsStay(c, s, a, t);
    }
    assert t.partition == s.partition ==> forall ord :: Weight(c, t, ord) == Weight(c, s, ord);
  }

  lemma {:induction false} WaitOn(c: Setting, e: Endless, start: nat, i: nat, k: nat) returns (j: nat)
    requires IsEndless(c, e) && CalmFrom(e, start) && start <= i <= k && Waits(c, e.state(i))
    ensures i <= j <= k && Rolling(c, e.state(j))
    ensures || e.state(j).partition < e.state(i).partition
            || (j == k && Waits(c, e.state(k)) && e.state(k).partition == e.state(i).partition
                && Rank(e.state(k)) <= Rank(e.state(i)))
    decreases k
  {
    j := i;
    if i < k {
      j := WaitOn(c, e, start, i, k - 1);
      if e.state(j).partition == e.state(i).partition {
        assert Steps(c, e, k - 1) && CalmAt(e, k - 1);
        WaitStep(c, e.state(k - 1), e.action(k - 1), e.state(k));
        j := k;
      }
    }
  }

  /** Closer to a release, or past it. */
  predicate Closer(c: Setting, s: State, t: State) {
    Rolling(c, t) && (t.partition < s.partition || (Waits(c, t) && t.partition == s.partition && Rank(t) < Rank(s)))
  }

  lemma CloserChain(c: Setting, s: State, t: State, u: State)
    requires t.partition == s.partition && Rank(t) <= Rank(s) && Closer(c, t, u)
    ensures Closer(c, s, u)
  {
  }

  lemma OperatorStepCloser(c: Setting, e: Endless, start: nat, i: nat)
    requires IsEndless(c, e) && CalmFrom(e, start) && i >= start && Waits(c, e.state(i)) && OperatorStep(e.action(i))
    ensures Closer(c, e.state(i), e.state(i + 1))
  {
    assert Steps(c, e, i) && CalmAt(e, i);
    WaitStep(c, e.state(i), e.action(i), e.state(i + 1));
  }

  lemma NextOperatorStep(c: Setting, e: Endless, from: nat) returns (i: nat)
    requires Fair(c, e)
    ensures i >= from && OperatorStep(e.action(i))
  {
    i := NextServed(c, e, Operating, from);
  }

  lemma ComesCloser(c: Setting, e: Endless, start: nat, i: nat) returns (j: nat)
    requires IsEndless(c, e) && CalmFrom(e, start) && Fair(c, e) && i >= start && Waits(c, e.state(i))
    ensures j >= i && Closer(c, e.state(i), e.state(j))
  {
    var k := NextOperatorStep(c, e, i);
    j := WaitOn(c, e, start, i, k);
    if e.state(j).partition == e.state(i).partition {
      OperatorStepCloser(c, e, start, k);
      CloserChain(c, e.state(i), e.state(k), e.state(k + 1));
      j := k + 1;
    }
  }

  lemma {:induction false} OperatorReleases(c: Setting, e: Endless, start: nat, i: nat) returns (j: nat)
    requires IsEndless(c, e) && CalmFrom(e, start) && Fair(c, e) && i >= start && Waits(c, e.state(i))
    ensures j >= i && Rolling(c, e.state(j)) && e.state(j).partition < e.state(i).partition
    decreases Rank(e.state(i))
  {
    j := ComesCloser(c, e, start, i);
    if e.state(j).partition == e.state(i).partition {
      j := OperatorReleases(c, e, start, j);
    }
  }

  // ---------- to the end ----------

  lemma LastCompletes(c: Setting, e: Endless, start: nat, i: nat) returns (j: nat)
    requires IsEndless(c, e) && CalmFrom(e, start) && Fair(c, e) && i >= start
    requires Rolling(c, e.state(i)) && e.state(i).partition == 0 && AllDone(c, e.state(i))
    ensures j >= i && Completed(c, e.state(j))
  {
    var k := NextServed(c, e, Completing, i);
    RunAhead(c, e, start, i, k);
    EndlessInv(c, e, k);
    j := k;
    if !Completed(c, e.state(k)) {
      var s, t := e.state(i), e.state(k);
      forall ord | 0 <= ord < c.size ensures ord in t.pods && t.pods[ord] == Pod(c.newRevision, true) {
        assert Weight(c, t, ord) <= Weight(c, s, ord) == 0;
      }
      assert Steps(c, e, k);
      CompleteStepAhead(c, t, e.state(k + 1));
      j := k + 1;
    }
  }

  lemma {:induction false} RollingCompletes(c: Setting, e: Endless, start: nat, i: nat) returns (j: nat)
    requires IsEndless(c, e) && CalmFrom(e, start) && Fair(c, e) && i >= start && Rolling(c, e.state(i))
    requires e.state(i).partition >= 0
    ensures j >= i && Completed(c, e.state(j))
    decreases e.state(i).partition
  {
    var k := PodsFinish(c, e, start, i, c.size);
    EndlessInv(c, e, k);
    j := k;
    var s, t := e.state(i), e.state(k);
    if Completed(c, t) {
    } else if t.partition < s.partition {
      j := RollingCompletes(c, e, start, k);
    } else if t.partition == 0 {
      j := LastCompletes(c, e, start, k);
    } else {
      var m := OperatorReleases(c, e, start, k);
      EndlessInv(c, e, m);
      j := RollingCompletes(c, e, start, m);
    }
  }

  /** The template has changed, and the StatefulSet controller has not seen it yet. */
  predicate Unseen(c: Setting, s: State) {
    s.template == c.newRevision && s.update == c.oldRevision && s.current == c.oldRevision
  }

  lemma {:induction false} SeenBy(c: Setting, e: Endless, i: nat, k: nat) returns (j: nat)
    requires IsEndless(c, e) && i <= k && Unseen(c, e.state(i))
    ensures i <= j <= k && (Rolling(c, e.state(j)) || (j == k && Unseen(c, e.state(k))))
    decreases k
  {
    j := i;
    if i < k {
      j := SeenBy(c, e, i, k - 1);
      if !Rolling(c, e.state(j)) {
        assert Steps(c, e, k - 1);
        j := k;
      }
    }
  }

  lemma RolloutStarts(c: Setting, e: Endless, i: nat) returns (j: nat)
    requires IsEndless(c, e) && Fair(c, e) && Unseen(c, e.state(i))
    ensures j >= i && Rolling(c, e.state(j))
  {
    var k := NextServed(c, e, Observing, i);
    j := SeenBy(c, e, i, k);
    if !Rolling(c, e.state(j)) {
      assert Steps(c, e, k);
      j := k + 1;
    }
  }

  /** In every fair run that is left undisturbed from some point on, once the template has changed,
      the rollout completes, with every pod ready on the new revision. */
  lemma FairRunsComplete(c: Setting, e: Endless, start: nat, i: nat) returns (j: nat)
    requires IsEndless(c, e) && Fair(c, e) && CalmFrom(e, start) && i >= start
    requires e.state(i).template == c.newRevision && e.state(i).current == c.oldRevision
    ensures j >= i && Completed(c, e.state(j))
  {
    EndlessInv(c, e, i);
    var k := i;
    if !Rolling(c, e.state(i)) {
      k := RolloutStarts(c, e, i);
    }
    EndlessInv(c, e, k);
    j := RollingCompletes(c, e, start, k);
  }

  // ---------- such runs exist ----------

  /** The four states the operator goes through for ever once the rollout has completed in u. */
  function CycleState(c: Setting, u: State, api: seq<ApiPod>, k: nat): State {
    var base := u.(partition := c.size, op := Operator.Idle);
    match k
    case 0 => base.(op := SpecWritten)
    case 1 => base.(op := HasSts(base.View()))
    case 2 => base.(op := HasPods(base.View(), AllListed(api)))
    case _ => base
  }

  function CycleAction(c: Setting, api: seq<ApiPod>, k: nat): Action {
    match k
    case 0 => WriteSpec(c.newRevision)
    case 1 => GetSts
    case 2 => ListPods(api, AllListed(api))
    case _ => Act(Spec(c.size, None), SettledRiak(if c.size >= 0 then c.size else 0))
  }

  /** The rollout is over, and the operator knows nothing yet. */
  ghost predicate Over(c: Setting, u: State, api: seq<ApiPod>) {
    Inv(c, u) && Completed(c, u) && u.op == Operator.Idle && ApiShows(c, api, u.pods)
  }

  lemma EnterCycle(c: Setting, u: State, api: seq<ApiPod>)
    requires c.Valid() && Over(c, u, api)
    ensures Next(c, u, CycleAction(c, api, 0), CycleState(c, u, api, 0))
  {
  }

  /** With no rollout in progress a reconcile changes nothing. */
  lemma IdleAct(c: Setting, s: State, spec: Spec, riak: RiakReads)
    requires s.op.HasPods? && !InProgress(s.op.sts) && spec.size == c.size
    ensures Next(c, s, Act(spec, riak), s.(op := Operator.Idle))
  {
  }

  lemma CycleAct(c: Setting, u: State, api: seq<ApiPod>)
    requires c.Valid() && Over(c, u, api)
    ensures var s := CycleState(c, u, api, 2);
            Next(c, s, CycleAction(c, api, 3), CycleState(c, u, api, 3)) && Undisturbed(s, CycleAction(c, api, 3))
  {
    var spec := Spec(c.size, None);
    SettledRiakIsSettled(spec, Probe(AllListed(api)));
    IdleAct(c, CycleState(c, u, api, 2), spec, SettledRiak(c.size));
  }

  lemma CycleStep(c: Setting, u: State, api: seq<ApiPod>, k: nat)
    requires c.Valid() && Over(c, u, api) && k < 4
    ensures var s := CycleState(c, u, api, (k + 3) % 4);
            Next(c, s, CycleAction(c, api, k), CycleState(c, u, api, k)) && Undisturbed(s, CycleAction(c, api, k))
  {
    if k == 3 {
      CycleAct(c, u, api);
    }
  }

  /** A finite run, then the cycle. */
  function Prolonged(c: Setting, r: Run, api: seq<ApiPod>): Endless
    requires |r.states| == |r.actions| + 1
  {
    var k := |r.actions|;
    Endless((i: nat) => if i <= k then r.states[i] else CycleState(c, r.states[k], api, (i - k - 1) % 4),
            (i: nat) => if i < k then r.actions[i] else CycleAction(c, api, (i - k) % 4))
  }

  lemma ProlongedSteps(c: Setting, r: Run, api: seq<ApiPod>, i: nat)
    requires c.Valid() && IsPath(c, r) && Over(c, r.states[|r.actions|], api)
    ensures Steps(c, Prolonged(c, r, api), i) && CalmAt(Prolonged(c, r, api), i)
  {
    var k, e := |r.actions|, Prolonged(c, r, api);
    if i < k {
      assert Next(c, r.states[i], r.actions[i], r.states[i + 1]);
    } else if i == k {
      EnterCycle(c, r.states[k], api);
    } else {
      var j := (i - k) % 4;
      assert (i - k - 1) % 4 == (j + 3) % 4;
      CycleStep(c, r.states[k], api, j);
    }
  }

  /** Once over, nothing is due but the operator's steps. */
  lemma CycleServes(c: Setting, u: State, api: seq<ApiPod>, k: nat, duty: Duty)
    requires c.Valid() && Over(c, u, api)
    ensures !Due(c, CycleState(c, u, api, k), duty) || Does(CycleAction(c, api, (k + 1) % 4), duty)
  {
  }

  lemma ProlongedIsFair(c: Setting, r: Run, api: seq<ApiPod>)
    requires c.Valid() && IsPath(c, r) && Over(c, r.states[|r.actions|], api)
    ensures Fair(c, Prolonged(c, r, api))
  {
    var k, e := |r.actions|, Prolonged(c, r, api);
    forall duty: Duty, from: nat ensures IsServed(c, e, duty, from) {
      var i: nat := from + k + 1;
      CycleServes(c, r.states[k], api, (i - k - 1) % 4, duty);
      assert ((i - k - 1) % 4 + 1) % 4 == (i - k) % 4;
      assert Served(c, e, duty, from, i);
    }
  }

  /** All pods there and ready on the old revision, before the template changes. */
  function BeforeChange(c: Setting): State
    requires c.Valid()
  {
    State(c.oldRevision, c.size, c.oldRevision, c.oldRevision,
          map ord | ord in Range(c.size) :: Pod(c.oldRevision, true), Operator.Idle)
  }

  /** The first reconcile writes the new template, and the StatefulSet controller sees it. */
  lemma ChangeLeads(c: Setting) returns (t: State)
    requires c.Valid()
    ensures var s := BeforeChange(c).(template := c.newRevision, op := SpecWritten);
            && Next(c, BeforeChange(c), WriteSpec(c.newRevision), s) && Inv(c, s)
            && Leads(c, s, t) && Underway(c, t)
  {
    var s0 := BeforeChange(c);
    var s := s0.(template := c.newRevision, op := SpecWritten);
    InitInv(c, s0);
    NextInv(c, s0, WriteSpec(c.newRevision), s);
    LeadsSame(c, s);
    var api, listing := ListAll(c, s.pods);
    var spec, riak := Spec(c.size, None), SettledRiak(c.size);
    SettledRiakIsSettled(spec, Probe(listing));
    LeadsOn(c, s, s, GetSts, s.(op := HasSts(s.View())));
    LeadsOn(c, s, s.(op := HasSts(s.View())), ListPods(api, listing), s.(op := HasPods(s.View(), listing)));
    LeadsOn(c, s, s.(op := HasPods(s.View(), listing)), Act(spec, riak), s.(op := Operator.Idle));
    t := s.(op := Operator.Idle, update := c.newRevision);
    LeadsOn(c, s, s.(op := Operator.Idle), Observe, t);
    LeadsInv(c, s, t);
  }

  lemma PathFrom(c: Setting, s: State, a: Action, t: State, u: State) returns (r: Run)
    requires Next(c, s, a, t) && Undisturbed(s, a) && Leads(c, t, u)
    ensures IsPath(c, r) && r.states[0] == s && r.states[1..] != [] && r.states[1] == t && r.states[|r.actions|] == u
  {
    var q :| Joins(c, q, t, u);
    r := Run([s] + q.states, [a] + q.actions);
    forall i | 0 <= i < |r.actions|
      ensures Next(c, r.states[i], r.actions[i], r.states[i + 1]) && Undisturbed(r.states[i], r.actions[i])
    {
      if i > 0 {
        assert Next(c, q.states[i - 1], q.actions[i - 1], q.states[i]);
      }
    }
  }

  /** For every size and any two revisions there is a fair run, undisturbed from the start, in which
      the template changes. */
  lemma FairRunsExist(c: Setting) returns (e: Endless)
    requires c.Valid()
    ensures IsEndless(c, e) && Fair(c, e) && CalmFrom(e, 0)
    ensures e.state(1).template == c.newRevision && e.state(1).current == c.oldRevision
  {
    var s0 := BeforeChange(c);
    var s := s0.(template := c.newRevision, op := SpecWritten);
    var t := ChangeLeads(c);
    var spec, riak := Spec(c.size, None), SettledRiak(c.size);
    forall probe ensures RingSettled(spec, probe, riak) { SettledRiakIsSettled(spec, probe); }
    var u := FinishRollout(c, s, t, spec, riak);
    LeadsInv(c, s, u);
    var r := PathFrom(c, s0, WriteSpec(c.newRevision), s, u);
    var api, listing := ListAll(c, u.pods);
    e := Prolonged(c, r, api);
    ProlongedRuns(c, r, api);
  }

  lemma ProlongedRuns(c: Setting, r: Run, api: seq<ApiPod>)
    requires c.Valid() && IsPath(c, r) && Init(c, r.states[0]) && Over(c, r.states[|r.actions|], api)
    ensures var e := Prolonged(c, r, api);
            IsEndless(c, e) && Fair(c, e) && CalmFrom(e, 0) && e.state(0) == r.states[0]
    ensures |r.actions| >= 1 ==> Prolonged(c, r, api).state(1) == r.states[1]
  {
    var e := Prolonged(c, r, api);
    forall i: nat ensures Steps(c, e, i) && CalmAt(e, i) { ProlongedSteps(c, r, api, i); }
    ProlongedIsFair(c, r, api);
  }
}
