/** The decisions of the operator-driven rolling restart (internal/controller/rollout.go). */
module Rollout {
  import opened Text
  import opened RiakStatus
  import opened Counting

  // ---------- what the decisions look at ----------

  /** What the rollout needs to know about one Riak pod. */
  datatype RolloutPod = RolloutPod(ordinal: int, name: string, revision: string, ready: bool)

  /** The parts of a StatefulSet the rollout reads. An empty `uid` is an object not created yet. */
  datatype Sts = Sts(uid: string, partition: Option<int>, currentRevision: string, updateRevision: string)

  datatype RolloutConfig = RolloutConfig(paused: bool, waitForTransfers: Option<bool>, stallTimeout: Option<int>)

  datatype Spec = Spec(size: int, rollout: Option<RolloutConfig>) {
    predicate Paused() { rollout.Some? && rollout.value.paused }

    predicate WaitsForTransfers() {
      rollout.None? || rollout.value.waitForTransfers.None? || rollout.value.waitForTransfers.value
    }
  }

  /** The replies of riak-admin on each pod; None is a failed command. */
  datatype RiakReads = RiakReads(members: string -> Option<seq<ClusterMember>>, transfers: string -> Option<string>)

  datatype Reason =
    | NotCreated(ordinal: int)
    | OldRevision(pod: string)
    | NotReady(pod: string)
    | TooFewPods(count: int)
    | MembersUnread(pod: string)
    | NotAllValid(valid: int)
    | TransfersUnread(pod: string)
    | TransfersBusy

  // ---------- the partition ----------

  predicate InProgress(sts: Sts) {
    sts.updateRevision != "" && sts.updateRevision != sts.currentRevision
  }

  function LivePartition(sts: Sts): int {
    if sts.partition.Some? then sts.partition.value else 0
  }

  function Min(a: int, b: int): int { if a < b then a else b }

  /** The partition the StatefulSet is written with on every reconcile. */
  function StsPartition(sts: Sts, replicas: int): int {
    if sts.uid == "" then 0
    else if InProgress(sts) then Min(LivePartition(sts), replicas)
    else replicas
  }

  /** What the partition is written to: a new object is not held; outside a rollout every pod is held;
      within one the live value is kept, unless the size has come down below it. */
  lemma PartitionWritten(sts: Sts, replicas: int)
    ensures sts.uid == "" ==> StsPartition(sts, replicas) == 0
    ensures sts.uid != "" && (sts.updateRevision == "" || sts.updateRevision == sts.currentRevision) ==>
              StsPartition(sts, replicas) == replicas
    ensures sts.uid != "" && sts.updateRevision != "" && sts.updateRevision != sts.currentRevision ==>
              var live := if sts.partition == None then 0 else sts.partition.value;
              && StsPartition(sts, replicas) in {live, replicas}
              && StsPartition(sts, replicas) <= live && StsPartition(sts, replicas) <= replicas
  {
  }

  /** The pod listed last for each ordinal. */
  function ByOrdinal(pods: seq<RolloutPod>): map<int, RolloutPod> {
    if pods == [] then map[]
    else ByOrdinal(pods[..|pods| - 1])[pods[|pods| - 1].ordinal := pods[|pods| - 1]]
  }

  lemma {:induction false} ByOrdinalListed(pods: seq<RolloutPod>, ord: int)
    ensures ord in ByOrdinal(pods) <==> exists i :: 0 <= i < |pods| && pods[i].ordinal == ord
    ensures ord in ByOrdinal(pods) ==> ByOrdinal(pods)[ord] in pods && ByOrdinal(pods)[ord].ordinal == ord
  {
    if pods != [] {
      var n := |pods| - 1;
      ByOrdinalListed(pods[..n], ord);
      assert pods == pods[..n] + [pods[n]];
    }
  }

  /** Where an ordinal is listed twice the later pod counts. */
  lemma {:induction false} ByOrdinalLast(pods: seq<RolloutPod>, i: nat)
    requires i < |pods| && forall k :: i < k < |pods| ==> pods[k].ordinal != pods[i].ordinal
    ensures pods[i].ordinal in ByOrdinal(pods) && ByOrdinal(pods)[pods[i].ordinal] == pods[i]
  {
    var n := |pods| - 1;
    if i < n {
      ByOrdinalLast(pods[..n], i);
    }
  }

  /** Why the pod at an ordinal is not finished, if it is not. */
  function Unfinished(byOrdinal: map<int, RolloutPod>, ord: int, updateRevision: string): Option<Reason> {
    if ord !in byOrdinal then Some(NotCreated(ord))
    else if byOrdinal[ord].revision != updateRevision then Some(OldRevision(byOrdinal[ord].name))
    else if !byOrdinal[ord].ready then Some(NotReady(byOrdinal[ord].name))
    else None
  }

  /** The reason at the lowest unfinished ordinal from `ord` up. */
  function FirstUnfinished(byOrdinal: map<int, RolloutPod>, ord: int, replicas: int, updateRevision: string): Option<Reason>
    decreases replicas - ord
  {
    if ord >= replicas then None
    else
      var why := Unfinished(byOrdinal, ord, updateRevision);
      if why.Some? then why else FirstUnfinished(byOrdinal, ord + 1, replicas, updateRevision)
  }

  /** Every ordinal from `from` up has a pod on the update revision that is Ready. */
  predicate AllFinished(byOrdinal: map<int, RolloutPod>, from: int, replicas: int, updateRevision: string) {
    forall ord :: from <= ord < replicas ==>
      ord in byOrdinal && byOrdinal[ord].revision == updateRevision && byOrdinal[ord].ready
  }

  lemma {:induction false} FirstUnfinishedIff(byOrdinal: map<int, RolloutPod>, ord: int, replicas: int, updateRevision: string)
    ensures FirstUnfinished(byOrdinal, ord, replicas, updateRevision).None? <==>
            AllFinished(byOrdinal, ord, replicas, updateRevision)
    decreases replicas - ord
  {
    if ord < replicas {
      FirstUnfinishedIff(byOrdinal, ord + 1, replicas, updateRevision);
    }
  }

  /** rolloutNext: the pods already released must all be finished before the next one is. */
  method RolloutNext(partition: int, replicas: int, updateRevision: string, pods: seq<RolloutPod>)
    returns (next: int, blocked: Option<Reason>)
    ensures partition <= 0 ==> next == 0 && blocked.None?
    ensures partition > 0 ==> blocked == FirstUnfinished(ByOrdinal(pods), partition, replicas, updateRevision)
    ensures partition > 0 ==> next == if blocked.None? then partition - 1 else partition
  {
    if partition <= 0 {
      return 0, None;
    }
    var byOrdinal: map<int, RolloutPod> := map[];
    for i := 0 to |pods|
      invariant byOrdinal == ByOrdinal(pods[..i])
    {
      assert pods[..i + 1][..i] == pods[..i];
      byOrdinal := byOrdinal[pods[i].ordinal := pods[i]];
    }
    assert pods[..|pods|] == pods;
    var ord := partition;
    while ord < replicas
      invariant ord >= partition
      invariant FirstUnfinished(byOrdinal, partition, replicas, updateRevision)
             == FirstUnfinished(byOrdinal, ord, replicas, updateRevision)
    {
      if ord !in byOrdinal {
        return partition, Some(NotCreated(ord));
      } else if byOrdinal[ord].revision != updateRevision {
        return partition, Some(OldRevision(byOrdinal[ord].name));
      } else if !byOrdinal[ord].ready {
        return partition, Some(NotReady(byOrdinal[ord].name));
      }
      ord := ord + 1;
    }
    return partition - 1, None;
  }

  // ---------- pod ordinals ----------

  const MAX_INT32 := 0x7fff_ffff

  /** The position of the last '-', or -1. */
  function LastDash(s: string): (i: int)
    ensures -1 <= i < |s|
    ensures i >= 0 ==> s[i] == '-'
    ensures forall k :: i < k < |s| ==> s[k] != '-'
  {
    if s == "" then -1
    else if s[|s| - 1] == '-' then |s| - 1
    else LastDash(s[..|s| - 1])
  }

  /** strconv.ParseInt(text, 10, 32) of a text without '-'. */
  function ParseInt32(text: string): Option<int> {
    var digits := if text != "" && text[0] == '+' then text[1..] else text;
    match ParseDigits(digits)
    case None => None
    case Some(n) => if n <= MAX_INT32 then Some(n) else None
  }

  function PodOrdinal(name: string): Option<int> {
    var i := LastDash(name);
    if i < 0 then None else ParseInt32(name[i + 1..])
  }

  function PodOrdinalOrMax(name: string): int {
    if PodOrdinal(name).Some? then PodOrdinal(name).value else MAX_INT32
  }

  function PodName(cluster: string, ord: nat): string {
    cluster + "-" + Decimal(ord)
  }

  /** The ordinal of a StatefulSet pod is the number in its name, so distinct names of one
      StatefulSet have distinct ordinals. */
  lemma OrdinalOfPodName(cluster: string, ord: nat)
    requires ord <= MAX_INT32
    ensures PodOrdinal(PodName(cluster, ord)) == Some(ord)
  {
    var name, digits := PodName(cluster, ord), Decimal(ord);
    var i := LastDash(name);
    assert name[|cluster|] == '-';
    assert forall k :: |cluster| < k < |name| ==> name[k] == digits[k - |cluster| - 1];
    assert i == |cluster|;
    assert name[i + 1..] == digits;
    DecimalReadBack(ord);
  }

  /** A name carries an ordinal exactly if it ends in a dash, perhaps a plus, and the digits of an
      int32: any such name does, */
  lemma OrdinalInName(before: string, plus: bool, digits: string)
    requires ParseDigits(digits).Some? && ParseDigits(digits).value <= 0x7fff_ffff
    ensures PodOrdinal(before + "-" + (if plus then "+" else "") + digits) == Some(ParseDigits(digits).value)
  {
    var text := (if plus then "+" else "") + digits;
    assert before + "-" + (if plus then "+" else "") + digits == before + "-" + text;
    AllDigits(digits);
    LastDashBefore(before, text);
    DigitsOfText(plus, digits);
  }

  lemma LastDashBefore(before: string, text: string)
    requires '-' !in text
    ensures var name := before + "-" + text; LastDash(name) == |before| && name[|before| + 1..] == text
  {
    var name := before + "-" + text;
    assert name[|before|] == '-';
    assert forall k :: |before| < k < |name| ==> name[k] == text[k - |before| - 1];
  }

  lemma DigitsOfText(plus: bool, digits: string)
    requires ParseDigits(digits).Some? && ParseDigits(digits).value <= MAX_INT32
    ensures ParseInt32((if plus then "+" else "") + digits) == Some(ParseDigits(digits).value)
  {
    AllDigits(digits);
    if plus {
      assert ("+" + digits)[1..] == digits;
    } else {
      assert "" + digits == digits;
    }
  }

  /** and every name that carries one does so. */
  lemma NameOfOrdinal(name: string) returns (before: string, plus: bool, digits: string)
    requires PodOrdinal(name).Some?
    ensures name == before + "-" + (if plus then "+" else "") + digits
    ensures ParseDigits(digits) == PodOrdinal(name) && PodOrdinal(name).value <= 0x7fff_ffff
  {
    var i := LastDash(name);
    var text := name[i + 1..];
    before, plus := name[..i], text != "" && text[0] == '+';
    digits := if plus then text[1..] else text;
    assert name == before + "-" + text;
  }

  lemma {:induction false} AllDigits(s: string)
    requires ParseDigits(s).Some?
    ensures s != "" && forall i :: 0 <= i < |s| ==> '0' <= s[i] <= '9'
  {
    if |s| > 1 {
      AllDigits(s[..|s| - 1]);
    }
  }

  /** A pod as the API lists it. */
  datatype ApiPod = ApiPod(name: string, terminating: bool, revision: string, ready: bool)

  function Listed(pod: ApiPod): seq<RolloutPod> {
    if PodOrdinal(pod.name).None? || pod.terminating then []
    else [RolloutPod(PodOrdinal(pod.name).value, pod.name, pod.revision, pod.ready)]
  }

  function AllListed(pods: seq<ApiPod>): seq<RolloutPod> {
    Gather(Listed, pods)
  }

  /** A pod that is not on its way out and whose name carries an ordinal. */
  predicate Listable(pod: ApiPod) { !pod.terminating && PodOrdinal(pod.name).Some? }

  /** The listing entry of a pod. */
  predicate IsEntry(p: RolloutPod, pod: ApiPod) {
    PodOrdinal(pod.name) == Some(p.ordinal) && p.name == pod.name && p.revision == pod.revision && p.ready == pod.ready
  }

  /** The listing is complete: every pod that can be listed is, as it is, once, and in order. `from`
      says which API entry each entry of the listing comes from. */
  lemma ListingIsComplete(pods: seq<ApiPod>) returns (from: seq<nat>)
    ensures |from| == |AllListed(pods)|
    ensures forall k :: 0 <= k < |from| ==>
              from[k] < |pods| && Listable(pods[from[k]]) && IsEntry(AllListed(pods)[k], pods[from[k]])
    ensures forall k, l :: 0 <= k < l < |from| ==> from[k] < from[l]
    ensures forall i :: 0 <= i < |pods| && Listable(pods[i]) ==> i in from
  {
    from := GatheredFrom(Listed, pods);
    forall k | 0 <= k < |from|
      ensures from[k] < |pods| && Listable(pods[from[k]]) && IsEntry(AllListed(pods)[k], pods[from[k]])
    {
      ListedIff(pods[from[k]]);
    }
    forall i | 0 <= i < |pods| && Listable(pods[i]) ensures i in from { ListedIff(pods[i]); }
  }

  lemma ListedIff(pod: ApiPod)
    ensures Listed(pod) != [] <==> Listable(pod)
    ensures Listed(pod) != [] ==> |Listed(pod)| == 1 && IsEntry(Listed(pod)[0], pod)
  {
  }

  /** rolloutPods: terminating pods and names without an ordinal are left out. */
  method RolloutPods(pods: seq<ApiPod>) returns (out: seq<RolloutPod>)
    ensures out == AllListed(pods)
    ensures forall p :: p in out ==> PodOrdinal(p.name) == Some(p.ordinal)
    ensures forall p :: p in out ==> ApiPod(p.name, false, p.revision, p.ready) in pods
  {
    out := [];
    for i := 0 to |pods|
      invariant out == AllListed(pods[..i])
      invariant forall p :: p in out ==> PodOrdinal(p.name) == Some(p.ordinal)
      invariant forall p :: p in out ==> ApiPod(p.name, false, p.revision, p.ready) in pods
    {
      assert pods[..i + 1][..i] == pods[..i];
      var pod := pods[i];
      var ord := PodOrdinal(pod.name);
      if ord.None? || pod.terminating {
        continue;
      }
      assert pod in pods;
      out := out + [RolloutPod(ord.value, pod.name, pod.revision, pod.ready)];
    }
    assert pods[..|pods|] == pods;
  }

  // ---------- is the cluster settled? ----------

  function FirstUnready(pods: seq<RolloutPod>): Option<Reason> {
    if pods == [] then None
    else if FirstUnready(pods[..|pods| - 1]).Some? then FirstUnready(pods[..|pods| - 1])
    else if !pods[|pods| - 1].ready then Some(NotReady(pods[|pods| - 1].name))
    else None
  }

  lemma {:induction false} FirstUnreadyIff(pods: seq<RolloutPod>)
    ensures FirstUnready(pods).None? <==> forall i :: 0 <= i < |pods| ==> pods[i].ready
  {
    if pods != [] {
      FirstUnreadyIff(pods[..|pods| - 1]);
    }
  }

  function LowestBy(pods: seq<RolloutPod>, ordinal: string -> int): string {
    if pods == [] then ""
    else
      var before, p := LowestBy(pods[..|pods| - 1], ordinal), pods[|pods| - 1];
      if before == "" || p.ordinal < ordinal(before) then p.name else before
  }

  /** The pod riak-admin is asked on. */
  function Probe(pods: seq<RolloutPod>): string {
    LowestBy(pods, PodOrdinalOrMax)
  }

  lemma {:induction false} LowestByIsLowest(pods: seq<RolloutPod>, ordinal: string -> int) returns (i: nat)
    requires pods != []
    requires forall i :: 0 <= i < |pods| ==> pods[i].name != "" && ordinal(pods[i].name) == pods[i].ordinal
    ensures i < |pods| && pods[i].name == LowestBy(pods, ordinal)
    ensures forall j :: 0 <= j < |pods| ==> pods[i].ordinal <= pods[j].ordinal
  {
    var n := |pods| - 1;
    i := n;
    if n > 0 {
      var k := LowestByIsLowest(pods[..n], ordinal);
      assert forall j :: 0 <= j < n ==> pods[j] == pods[..n][j];
      i := if pods[n].ordinal < pods[k].ordinal then n else k;
    }
  }

  /** The probe is a pod of lowest ordinal. */
  lemma ProbeIsLowest(pods: seq<RolloutPod>) returns (i: nat)
    requires pods != [] && forall i :: 0 <= i < |pods| ==> PodOrdinal(pods[i].name) == Some(pods[i].ordinal)
    ensures i < |pods| && pods[i].name == Probe(pods)
    ensures forall j :: 0 <= j < |pods| ==> pods[i].ordinal <= pods[j].ordinal
  {
    forall i | 0 <= i < |pods| ensures pods[i].name != "" {
      assert PodOrdinal(pods[i].name).Some?;
    }
    i := LowestByIsLowest(pods, PodOrdinalOrMax);
  }

  function CountValid(members: seq<ClusterMember>): nat {
    if members == [] then 0
    else CountValid(members[..|members| - 1]) + (if members[|members| - 1].status == VALID then 1 else 0)
  }

  lemma {:induction false} CountValidAll(members: seq<ClusterMember>)
    ensures CountValid(members) <= |members|
    ensures CountValid(members) == |members| <==> forall i :: 0 <= i < |members| ==> members[i].status == "valid"
  {
    if members != [] {
      CountValidAll(members[..|members| - 1]);
    }
  }

  /** Why the ring is not settled, as `probe` sees it. */
  function RingUnsettled(spec: Spec, probe: string, riak: RiakReads): Option<Reason> {
    match riak.members(probe)
    case None => Some(MembersUnread(probe))
    case Some(members) =>
      if CountValid(members) != spec.size || |members| != spec.size then Some(NotAllValid(CountValid(members)))
      else if !spec.WaitsForTransfers() then None
      else
        match riak.transfers(probe)
        case None => Some(TransfersUnread(probe))
        case Some(out) => if Idle(out) then None else Some(TransfersBusy)
  }

  /** Why another node may not be restarted yet, if so. */
  function Unsettled(spec: Spec, pods: seq<RolloutPod>, riak: RiakReads): Option<Reason> {
    if |pods| < spec.size then Some(TooFewPods(|pods|))
    else if FirstUnready(pods).Some? then FirstUnready(pods)
    else if spec.size == 1 || Probe(pods) == "" then None
    else RingUnsettled(spec, Probe(pods), riak)
  }

  /** The ring, as one pod reports it, has exactly `size` members, all of them valid, and
      unless the wait is switched off its transfers read as idle. */
  predicate RingSettled(spec: Spec, probe: string, riak: RiakReads) {
    && riak.members(probe).Some?
    && |riak.members(probe).value| == spec.size
    && (forall i :: 0 <= i < spec.size ==> riak.members(probe).value[i].status == "valid")
    && (|| (spec.rollout.Some? && spec.rollout.value.waitForTransfers == Some(false))
        || (riak.transfers(probe).Some? && Idle(riak.transfers(probe).value)))
  }

  lemma RingUnsettledIff(spec: Spec, probe: string, riak: RiakReads)
    ensures RingUnsettled(spec, probe, riak).None? <==> RingSettled(spec, probe, riak)
  {
    if riak.members(probe).Some? {
      CountValidAll(riak.members(probe).value);
    }
  }

  /** clusterSettled. */
  method ClusterSettled(spec: Spec, pods: seq<RolloutPod>, riak: RiakReads) returns (why: Option<Reason>)
    ensures why == Unsettled(spec, pods, riak)
  {
    if |pods| < spec.size {
      return Some(TooFewPods(|pods|));
    }
    var probe := "";
    for i := 0 to |pods|
      invariant FirstUnready(pods[..i]).None?
      invariant probe == Probe(pods[..i])
    {
      assert pods[..i + 1][..i] == pods[..i];
      if !pods[i].ready {
        UnreadyStays(pods, i + 1);
        return Some(NotReady(pods[i].name));
      }
      if probe == "" || pods[i].ordinal < PodOrdinalOrMax(probe) {
        probe := pods[i].name;
      }
    }
    assert pods[..|pods|] == pods;
    if spec.size == 1 || probe == "" {
      return None;
    }
    var reply := riak.members(probe);
    if reply.None? {
      return Some(MembersUnread(probe));
    }
    var members, valid := reply.value, 0;
    for i := 0 to |members|
      invariant valid == CountValid(members[..i])
    {
      assert members[..i + 1][..i] == members[..i];
      if members[i].status == VALID {
        valid := valid + 1;
      }
    }
    assert members[..|members|] == members;
    if valid != spec.size || |members| != spec.size {
      return Some(NotAllValid(valid));
    }
    if spec.WaitsForTransfers() {
      var out := riak.transfers(probe);
      if out.None? {
        return Some(TransfersUnread(probe));
      }
      var idle := ParseTransfersIdle(out.value);
      if !idle {
        return Some(TransfersBusy);
      }
    }
    return None;
  }

  lemma {:induction false} UnreadyStays(pods: seq<RolloutPod>, i: nat)
    requires i <= |pods| && FirstUnready(pods[..i]).Some?
    ensures FirstUnready(pods) == FirstUnready(pods[..i])
  {
    if i < |pods| {
      var n := |pods| - 1;
      assert pods[..n][..i] == pods[..i];
      UnreadyStays(pods[..n], i);
    } else {
      assert pods[..i] == pods;
    }
  }

  // ---------- one pass of reconcileRollout ----------

  /** What one pass does with the rollout. */
  datatype Pass = NoRollout | Finishing | Paused | Waiting(why: Reason) | Release(next: int)

  function Decide(spec: Spec, sts: Sts, pods: seq<RolloutPod>, riak: RiakReads): Pass {
    if !InProgress(sts) then NoRollout
    else if LivePartition(sts) <= 0 then Finishing
    else if spec.Paused() then Pass.Paused
    else
      var partition := LivePartition(sts);
      match FirstUnfinished(ByOrdinal(pods), partition, spec.size, sts.updateRevision)
      case Some(why) => Waiting(why)
      case None =>
        match Unsettled(spec, pods, riak)
        case Some(why) => Waiting(why)
        case None => Release(partition - 1)
  }

  /** A pass releases a node exactly when the rollout is running and not paused, the nodes
      released before are finished, and the cluster is settled. */
  lemma ReleaseIff(spec: Spec, sts: Sts, pods: seq<RolloutPod>, riak: RiakReads)
    ensures Decide(spec, sts, pods, riak).Release? <==>
            && InProgress(sts) && LivePartition(sts) > 0 && !spec.Paused()
            && AllFinished(ByOrdinal(pods), LivePartition(sts), spec.size, sts.updateRevision)
            && |pods| >= spec.size && (forall i :: 0 <= i < |pods| ==> pods[i].ready)
            && (spec.size == 1 || Probe(pods) == "" || RingSettled(spec, Probe(pods), riak))
    ensures Decide(spec, sts, pods, riak).Release? ==> Decide(spec, sts, pods, riak).next == LivePartition(sts) - 1
  {
    FirstUnfinishedIff(ByOrdinal(pods), LivePartition(sts), spec.size, sts.updateRevision);
    FirstUnreadyIff(pods);
    RingUnsettledIff(spec, Probe(pods), riak);
  }

  /** Which pass it is, in the words of the spec and the StatefulSet. */
  lemma PassIff(spec: Spec, sts: Sts, pods: seq<RolloutPod>, riak: RiakReads)
    ensures var pass := Decide(spec, sts, pods, riak);
            var running := sts.updateRevision != "" && sts.updateRevision != sts.currentRevision;
            var held := sts.partition != None && sts.partition.value > 0;
            var paused := spec.rollout != None && spec.rollout.value.paused;
            && (pass == NoRollout <==> !running)
            && (pass == Finishing <==> running && !held)
            && (pass == Pass.Paused <==> running && held && paused)
            && (pass.Waiting? || pass.Release? <==> running && held && !paused)
            && (pass.Release? ==> pass.next == sts.partition.value - 1)
  {
  }

  /** The lowest ordinal from the partition up that is not finished. */
  predicate Lowest(byOrdinal: map<int, RolloutPod>, from: int, ord: int, size: int, revision: string) {
    && from <= ord < size && AllFinished(byOrdinal, from, ord, revision)
    && !(ord in byOrdinal && byOrdinal[ord].revision == revision && byOrdinal[ord].ready)
  }

  predicate FirstNotReady(pods: seq<RolloutPod>, i: int) {
    0 <= i < |pods| && !pods[i].ready && forall k :: 0 <= k < i ==> pods[k].ready
  }

  predicate AllReady(pods: seq<RolloutPod>) { forall i :: 0 <= i < |pods| ==> pods[i].ready }

  /** What a reason to wait says is so, and everything that is asked before it was found in order. */
  ghost predicate ReasonHolds(why: Reason, spec: Spec, sts: Sts, pods: seq<RolloutPod>, riak: RiakReads) {
    var byOrdinal, from, revision, probe := ByOrdinal(pods), LivePartition(sts), sts.updateRevision, Probe(pods);
    var finished := AllFinished(byOrdinal, from, spec.size, revision);
    var up := finished && |pods| >= spec.size && AllReady(pods) && spec.size != 1;
    var ring := up && riak.members(probe).Some? && |riak.members(probe).value| == spec.size
                && forall i :: 0 <= i < spec.size ==> riak.members(probe).value[i].status == "valid";
    match why
    case NotCreated(ord) => Lowest(byOrdinal, from, ord, spec.size, revision) && ord !in byOrdinal
    case OldRevision(name) =>
      exists ord :: Lowest(byOrdinal, from, ord, spec.size, revision) && ord in byOrdinal
        && byOrdinal[ord].name == name && byOrdinal[ord].revision != revision
    case NotReady(name) =>
      || (exists ord :: Lowest(byOrdinal, from, ord, spec.size, revision) && ord in byOrdinal
            && byOrdinal[ord].name == name && byOrdinal[ord].revision == revision)
      || (finished && |pods| >= spec.size && exists i :: FirstNotReady(pods, i) && pods[i].name == name)
    case TooFewPods(count) => finished && count == |pods| < spec.size
    case MembersUnread(pod) => up && pod == probe && riak.members(probe).None?
    case NotAllValid(valid) => up && riak.members(probe).Some? && !ring && valid == CountValid(riak.members(probe).value)
    case TransfersUnread(pod) => ring && pod == probe && riak.transfers(probe).None?
    case TransfersBusy => ring && riak.transfers(probe).Some? && !Idle(riak.transfers(probe).value)
  }

  lemma {:induction false} UnfinishedHolds(spec: Spec, sts: Sts, pods: seq<RolloutPod>, riak: RiakReads, ord: int)
    requires LivePartition(sts) <= ord && AllFinished(ByOrdinal(pods), LivePartition(sts), ord, sts.updateRevision)
    requires FirstUnfinished(ByOrdinal(pods), ord, spec.size, sts.updateRevision).Some?
    ensures ReasonHolds(FirstUnfinished(ByOrdinal(pods), ord, spec.size, sts.updateRevision).value, spec, sts, pods, riak)
    decreases spec.size - ord
  {
    if Unfinished(ByOrdinal(pods), ord, sts.updateRevision).None? {
      UnfinishedHolds(spec, sts, pods, riak, ord + 1);
    } else {
      assert Lowest(ByOrdinal(pods), LivePartition(sts), ord, spec.size, sts.updateRevision);
    }
  }

  lemma {:induction false} UnreadyHolds(pods: seq<RolloutPod>) returns (i: nat)
    requires FirstUnready(pods).Some?
    ensures i < |pods| && !pods[i].ready && FirstUnready(pods) == Some(NotReady(pods[i].name))
    ensures forall k :: 0 <= k < i ==> pods[k].ready
  {
    var n := |pods| - 1;
    if FirstUnready(pods[..n]).Some? {
      i := UnreadyHolds(pods[..n]);
    } else {
      FirstUnreadyIff(pods[..n]);
      assert forall k :: 0 <= k < n ==> pods[k] == pods[..n][k];
      i := n;
    }
  }

  /** A pass that waits gives a reason that holds. */
  lemma WaitsForAReason(spec: Spec, sts: Sts, pods: seq<RolloutPod>, riak: RiakReads)
    requires Decide(spec, sts, pods, riak).Waiting?
    ensures ReasonHolds(Decide(spec, sts, pods, riak).why, spec, sts, pods, riak)
  {
    FirstUnfinishedIff(ByOrdinal(pods), LivePartition(sts), spec.size, sts.updateRevision);
    FirstUnreadyIff(pods);
    if FirstUnfinished(ByOrdinal(pods), LivePartition(sts), spec.size, sts.updateRevision).Some? {
      UnfinishedHolds(spec, sts, pods, riak, LivePartition(sts));
    } else if |pods| >= spec.size && FirstUnready(pods).Some? {
      var i := UnreadyHolds(pods);
      assert FirstNotReady(pods, i);
    } else if |pods| >= spec.size && riak.members(Probe(pods)).Some? {
      CountValidAll(riak.members(Probe(pods)).value);
    }
  }

  // ---------- what counting pods says about the ordinals ----------

  function Ordinals(pods: seq<RolloutPod>): seq<int> {
    seq(|pods|, i requires 0 <= i < |pods| => pods[i].ordinal)
  }

  /** The ordinals below the size that are not listed. */
  function Missing(pods: seq<RolloutPod>, size: nat): set<int> {
    Range(size) - Elements(Ordinals(pods))
  }

  /** The ordinals listed that are not below the size, as after a scale-down. */
  function Leftover(pods: seq<RolloutPod>, size: nat): set<int> {
    Elements(Ordinals(pods)) - Range(size)
  }

  /** The gate counts pods, it does not look for each ordinal: it is passed if and only if there
      are no more ordinals missing than left over. */
  lemma GateCountsIff(pods: seq<RolloutPod>, size: nat)
    requires Distinct(Ordinals(pods))
    ensures |pods| >= size <==> |Missing(pods, size)| <= |Leftover(pods, size)|
  {
    var listed, due := Elements(Ordinals(pods)), Range(size);
    DistinctCount(Ordinals(pods));
    RangeCount(size);
    assert listed == (listed * due) + (listed - due);
    assert due == (listed * due) + (due - listed);
  }

  /** So a release says of the ordinals: the released ones are finished, and no more are missing
      below the partition than are left over above the size. */
  lemma ReleaseCountsIff(spec: Spec, sts: Sts, pods: seq<RolloutPod>, riak: RiakReads)
    requires spec.size >= 0 && Distinct(Ordinals(pods))
    ensures Decide(spec, sts, pods, riak).Release? <==>
            && InProgress(sts) && LivePartition(sts) > 0 && !spec.Paused()
            && AllFinished(ByOrdinal(pods), LivePartition(sts), spec.size, sts.updateRevision)
            && |Missing(pods, spec.size)| <= |Leftover(pods, spec.size)|
            && (forall i :: 0 <= i < |pods| ==> pods[i].ready)
            && (spec.size == 1 || Probe(pods) == "" || RingSettled(spec, Probe(pods), riak))
  {
    ReleaseIff(spec, sts, pods, riak);
    GateCountsIff(pods, spec.size);
  }

  /** With nothing left over, a release means that every ordinal exists. */
  lemma ReleaseNeedsEveryOrdinal(spec: Spec, sts: Sts, pods: seq<RolloutPod>, riak: RiakReads)
    requires spec.size >= 0 && Distinct(Ordinals(pods)) && Leftover(pods, spec.size) == {}
    requires Decide(spec, sts, pods, riak).Release?
    ensures forall ord :: 0 <= ord < spec.size ==> ord in ByOrdinal(pods)
  {
    ReleaseCountsIff(spec, sts, pods, riak);
    forall ord | 0 <= ord < spec.size ensures ord in ByOrdinal(pods) {
      assert ord in Range(spec.size) && ord !in Missing(pods, spec.size);
      assert ord in Ordinals(pods);
      var i :| 0 <= i < |pods| && Ordinals(pods)[i] == ord;
      ByOrdinalListed(pods, ord);
    }
  }

  /** Ready pods with given ordinals and revisions. */
  lemma {:induction false} ReadyPods(ordinals: set<int>, revision: int -> string) returns (pods: seq<RolloutPod>)
    requires forall ord :: ord in ordinals ==> ord >= 0
    ensures Distinct(Ordinals(pods)) && Elements(Ordinals(pods)) == ordinals
    ensures forall p :: p in pods ==> p.ready && p.revision == revision(p.ordinal)
    decreases |ordinals|
  {
    pods := [];
    if |ordinals| > 0 {
      var ord := Pick(ordinals);
      var rest := ReadyPods(ordinals - {ord}, revision);
      assert ord !in Elements(Ordinals(rest));
      pods := rest + [RolloutPod(ord, PodName("riak", ord), revision(ord), true)];
      assert Ordinals(pods) == Ordinals(rest) + [ord];
      DistinctSnoc(Ordinals(rest), ord);
      assert ordinals - {ord} + {ord} == ordinals;
    } else {
      assert Elements(Ordinals(pods)) == ordinals;
    }
  }

  /** A Riak that reports a settled ring of the given size. */
  function SettledRiak(size: nat): RiakReads {
    RiakReads(probe => Some(seq(size, i requires 0 <= i < size => ClusterMember(VALID, "riak@" + PodName("riak", i)))),
              probe => Some("no transfers active"))
  }

  lemma SettledRiakIsSettled(spec: Spec, probe: string)
    requires spec.size >= 0
    ensures RingSettled(spec, probe, SettledRiak(spec.size))
  {
    NoTransfersIsIdle("no transfers active");
  }

  /** And every leftover can hide a missing pod: whatever is missing below the partition, as many
      left over above the size make the gate pass all the same, in any rollout. */
  lemma LeftoverPodHidesMissing(sts: Sts, size: nat, missing: set<int>, leftover: set<int>) returns (pods: seq<RolloutPod>)
    requires InProgress(sts) && 0 < LivePartition(sts) <= size && |missing| <= |leftover|
    requires forall ord :: ord in missing ==> 0 <= ord < LivePartition(sts)
    requires forall ord :: ord in leftover ==> ord >= size
    ensures Distinct(Ordinals(pods)) && Missing(pods, size) == missing && Leftover(pods, size) == leftover
    ensures Decide(Spec(size, None), sts, pods, SettledRiak(size)) == Release(LivePartition(sts) - 1)
  {
    var partition := LivePartition(sts);
    pods := ReadyPods((Range(size) - missing) + leftover,
                      ord => if ord < partition then sts.currentRevision else sts.updateRevision);
    assert Missing(pods, size) == missing && Leftover(pods, size) == leftover;
    ReadyPodsFinished(pods, partition, size, sts.updateRevision);
    forall i | 0 <= i < |pods| ensures pods[i].ready { assert pods[i] in pods; }
    GateCountsIff(pods, size);
    SettledReleases(Spec(size, None), sts, pods);
  }

  lemma SettledReleases(spec: Spec, sts: Sts, pods: seq<RolloutPod>)
    requires 0 <= spec.size <= |pods| && spec.rollout == None && InProgress(sts) && LivePartition(sts) > 0
    requires AllFinished(ByOrdinal(pods), LivePartition(sts), spec.size, sts.updateRevision)
    requires forall i :: 0 <= i < |pods| ==> pods[i].ready
    ensures Decide(spec, sts, pods, SettledRiak(spec.size)) == Release(LivePartition(sts) - 1)
  {
    SettledRiakIsSettled(spec, Probe(pods));
    ReleaseIff(spec, sts, pods, SettledRiak(spec.size));
  }

  lemma ReadyPodsFinished(pods: seq<RolloutPod>, from: nat, size: nat, revision: string)
    requires forall p :: p in pods ==> p.ready && (p.ordinal >= from ==> p.revision == revision)
    requires forall ord :: from <= ord < size ==> ord in Elements(Ordinals(pods))
    ensures AllFinished(ByOrdinal(pods), from, size, revision)
  {
    forall ord | from <= ord < size
      ensures ord in ByOrdinal(pods) && ByOrdinal(pods)[ord].revision == revision && ByOrdinal(pods)[ord].ready
    {
      assert ord in Elements(Ordinals(pods));
      var i :| 0 <= i < |pods| && Ordinals(pods)[i] == ord;
      ByOrdinalListed(pods, ord);
    }
  }
}
