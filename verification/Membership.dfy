/** Forming one Riak ring out of standalone nodes (internal/riak/manager.go, ReconcileMembership)
    and the Ready gate that waits for it (internal/controller/riakcluster_controller.go). */
module Membership {
  import opened Text
  import opened RiakStatus
  import opened Rollout
  import opened Counting

  // ---------- the pass ----------

  /** A command that changes something; reads are not listed. */
  datatype Command = Join(pod: string, target: string) | Plan(pod: string) | Commit(pod: string)

  datatype Result = Formed | NotYet | Failed

  /** The output of member-status on each pod during one pass; None is a failed command. Staged
      joins do not show before the commit, so a pass sees one set of replies. */
  type Views = string -> Option<string>

  predicate IsSeedNode(node: string, seed: string) {
    node == "riak@" + seed || HasPrefix(node, "riak@" + seed + ".")
  }

  /** The seed's own node name in its member list: the last one that fits. */
  function SeedNode(members: seq<ClusterMember>, seed: string): string {
    if members == [] then ""
    else if IsSeedNode(members[|members| - 1].node, seed) then members[|members| - 1].node
    else SeedNode(members[..|members| - 1], seed)
  }

  function Nodes(members: seq<ClusterMember>): set<string> {
    set m | m in members :: m.node
  }

  /** A ring of exactly itself, and a node the seed does not list. */
  predicate Joins(members: seq<ClusterMember>, ring: set<string>) {
    |members| == 1 && members[0].node !in ring
  }

  /** The pods to join, in order, as far as their replies can be read. */
  function ToJoin(pods: seq<string>, seed: string, views: Views, ring: set<string>): seq<string> {
    if pods == [] then []
    else
      var n := |pods| - 1;
      var p := pods[n];
      ToJoin(pods[..n], seed, views, ring) + (if JoinsAs(p, seed, views, ring) then [p] else [])
  }

  function JoinAll(pods: seq<string>, target: string): seq<Command> {
    seq(|pods|, i requires 0 <= i < |pods| => Join(pods[i], target))
  }

  /** The joins, then one plan and one commit if there are any. */
  function CommandsFor(joining: seq<string>, seed: string, seedNode: string): seq<Command> {
    JoinAll(joining, seedNode) + (if joining == [] then [] else [Plan(seed), Commit(seed)])
  }

  /** Every command of a pass that meets no error. */
  function Commands(pods: seq<string>, seed: string, views: Views, members: seq<ClusterMember>): seq<Command> {
    CommandsFor(ToJoin(pods, seed, views, Nodes(members)), seed, SeedNode(members, seed))
  }

  function Seed(cluster: string): string { cluster + "-0" }

  /** What the seed's member list says: who is in the ring, how many are valid, its own name. */
  method ReadSeed(members: seq<ClusterMember>, seed: string) returns (inRing: set<string>, valid: nat, seedNode: string)
    ensures inRing == Nodes(members) && valid == CountValid(members) && seedNode == SeedNode(members, seed)
  {
    seedNode, inRing, valid := "", {}, 0;
    for i := 0 to |members|
      invariant inRing == Nodes(members[..i])
      invariant valid == CountValid(members[..i])
      invariant seedNode == SeedNode(members[..i], seed)
    {
      var m := members[i];
      assert members[..i + 1][..i] == members[..i];
      assert members[..i + 1] == members[..i] + [m];
      inRing := inRing + {m.node};
      if m.status == VALID {
        valid := valid + 1;
      }
      if IsSeedNode(m.node, seed) {
        seedNode := m.node;
      }
    }
    assert members[..|members|] == members;
  }

  /** Whether a pod's reply, once read, makes it join. */
  predicate JoinsAs(pod: string, seed: string, views: Views, ring: set<string>) {
    pod != seed && views(pod).Some? && Joins(Members(views(pod).value), ring)
  }

  /** Stage a join for every standalone pod outside the ring. */
  method StageJoins(podNames: seq<string>, seed: string, views: Views, inRing: set<string>, seedNode: string,
                    fails: Command -> bool)
    returns (ok: bool, sent: seq<Command>)
    ensures sent <= JoinAll(ToJoin(podNames, seed, views, inRing), seedNode)
    ensures ok ==> sent == JoinAll(ToJoin(podNames, seed, views, inRing), seedNode)
    ensures ok ==> AllAnswered(podNames, seed, views) && AllSucceed(sent, fails)
    ensures StopsAtError(sent, fails)
    ensures !ok ==> exists i :: 0 <= i < |podNames| && StopsAt(podNames, seed, views, inRing, seedNode, fails, sent, i)
    ensures !ok ==> !AllAnswered(podNames, seed, views) || (sent != [] && fails(sent[|sent| - 1]))
  {
    sent := [];
    for i := 0 to |podNames|
      invariant AllAnswered(podNames[..i], seed, views)
      invariant sent == JoinAll(ToJoin(podNames[..i], seed, views, inRing), seedNode)
      invariant AllSucceed(sent, fails)
    {
      var pod := podNames[i];
      StageStep(podNames, seed, views, inRing, seedNode, i);
      if pod == seed {
        continue;
      }
      if views(pod).None? {
        assert StopsAt(podNames, seed, views, inRing, seedNode, fails, sent, i);
        return false, sent;
      }
      var joins := IsStandalone(views(pod).value, inRing);
      if !joins {
        continue;
      }
      sent := sent + [Join(pod, seedNode)];
      if fails(Join(pod, seedNode)) {
        assert StopsAt(podNames, seed, views, inRing, seedNode, fails, sent, i);
        return false, sent;
      }
    }
    assert podNames[..|podNames|] == podNames;
    ok := true;
  }

  /** The i-th pod is where staging stopped: its reply could not be read, or its join failed. */
  predicate StopsAt(pods: seq<string>, seed: string, views: Views, ring: set<string>, target: string,
                    fails: Command -> bool, sent: seq<Command>, i: nat)
    requires i < |pods|
  {
    && AllAnswered(pods[..i], seed, views) && pods[i] != seed
    && (if views(pods[i]).None? then sent == JoinAll(ToJoin(pods[..i], seed, views, ring), target)
        else sent == JoinAll(ToJoin(pods[..i], seed, views, ring), target) + [Join(pods[i], target)]
             && JoinsAs(pods[i], seed, views, ring) && fails(Join(pods[i], target)))
  }

  /** None of the commands ends in an error. */
  predicate AllSucceed(sent: seq<Command>, fails: Command -> bool) {
    forall k :: 0 <= k < |sent| ==> !fails(sent[k])
  }

  /** At most the last command sent ends in an error. */
  predicate StopsAtError(sent: seq<Command>, fails: Command -> bool) {
    forall k :: 0 <= k < |sent| - 1 ==> !fails(sent[k])
  }

  method IsStandalone(reply: string, inRing: set<string>) returns (joins: bool)
    ensures joins == Joins(Members(reply), inRing)
  {
    var members := ParseMemberStatus(reply);
    joins := |members| == 1 && members[0].node !in inRing;
  }

  /** What looking at the i-th pod can do to the list of commands. */
  lemma StageStep(pods: seq<string>, seed: string, views: Views, ring: set<string>, target: string, i: nat)
    requires i < |pods| && AllAnswered(pods[..i], seed, views)
    ensures AllAnswered(pods[..i + 1], seed, views) <==> pods[i] == seed || views(pods[i]).Some?
    ensures AllAnswered(pods, seed, views) ==> pods[i] == seed || views(pods[i]).Some?
    ensures var before, after := ToJoin(pods[..i], seed, views, ring), ToJoin(pods[..i + 1], seed, views, ring);
            && JoinAll(after, target) ==
                 JoinAll(before, target) + (if JoinsAs(pods[i], seed, views, ring) then [Join(pods[i], target)] else [])
            && JoinAll(before, target) <= JoinAll(ToJoin(pods, seed, views, ring), target)
            && JoinAll(after, target) <= JoinAll(ToJoin(pods, seed, views, ring), target)
  {
    AnsweredSnoc(pods, seed, views, i);
    if AllAnswered(pods, seed, views) {
      AnsweredPrefix(pods, seed, views, i + 1);
    }
    ToJoinSnoc(pods, seed, views, ring, i);
    var before := ToJoin(pods[..i], seed, views, ring);
    JoinAllSnoc(before, pods[i], target);
    assert before + [] == before;
    ToJoinPrefix(pods, seed, views, ring, i);
    ToJoinPrefix(pods, seed, views, ring, i + 1);
    JoinAllPrefix(before, ToJoin(pods, seed, views, ring), target);
    JoinAllPrefix(ToJoin(pods[..i + 1], seed, views, ring), ToJoin(pods, seed, views, ring), target);
  }

  /** Every pod but the seed, which was asked first, could be asked. */
  predicate AllAnswered(pods: seq<string>, seed: string, views: Views) {
    pods == [] ||
    (AllAnswered(pods[..|pods| - 1], seed, views) && (pods[|pods| - 1] == seed || views(pods[|pods| - 1]).Some?))
  }

  lemma AnsweredSnoc(pods: seq<string>, seed: string, views: Views, i: nat)
    requires i < |pods|
    ensures AllAnswered(pods[..i + 1], seed, views) <==>
            AllAnswered(pods[..i], seed, views) && (pods[i] == seed || views(pods[i]).Some?)
  {
    assert pods[..i + 1][..i] == pods[..i];
  }

  lemma {:induction false} AnsweredPrefix(pods: seq<string>, seed: string, views: Views, i: nat)
    requires i <= |pods| && AllAnswered(pods, seed, views)
    ensures AllAnswered(pods[..i], seed, views)
  {
    if i == |pods| {
      assert pods[..i] == pods;
    } else {
      AnsweredPrefix(pods[..|pods| - 1], seed, views, i);
      assert pods[..|pods| - 1][..i] == pods[..i];
    }
  }

  lemma JoinAllSnoc(pods: seq<string>, pod: string, target: string)
    ensures JoinAll(pods + [pod], target) == JoinAll(pods, target) + [Join(pod, target)]
  {
  }

  lemma JoinAllPrefix(a: seq<string>, b: seq<string>, target: string)
    requires a <= b
    ensures JoinAll(a, target) <= JoinAll(b, target)
  {
  }

  lemma ToJoinSnoc(pods: seq<string>, seed: string, views: Views, ring: set<string>, i: nat)
    requires i < |pods|
    ensures ToJoin(pods[..i + 1], seed, views, ring) == ToJoin(pods[..i], seed, views, ring)
            + (if JoinsAs(pods[i], seed, views, ring) then [pods[i]] else [])
  {
    assert pods[..i + 1][..i] == pods[..i];
  }

  /** The seed's member list, empty where it cannot be read. */
  function SeedMembers(seed: string, views: Views): seq<ClusterMember> {
    if views(seed).Some? then Members(views(seed).value) else []
  }

  /** The replies a pass needs can all be read, and the seed lists itself. */
  predicate Readable(seed: string, podNames: seq<string>, views: Views) {
    && views(seed).Some? && SeedNode(SeedMembers(seed, views), seed) != ""
    && AllAnswered(podNames, seed, views)
  }

  /** The end of a pass that staged joins: plan and commit once, on the seed. */
  method PlanAndCommit(seed: string, fails: Command -> bool) returns (ok: bool, sent: seq<Command>)
    ensures sent <= [Plan(seed), Commit(seed)] && sent != []
    ensures ok ==> sent == [Plan(seed), Commit(seed)]
    ensures ok <==> !fails(sent[|sent| - 1])
    ensures StopsAtError(sent, fails)
  {
    sent := [Plan(seed)];
    if fails(Plan(seed)) {
      return false, sent;
    }
    sent := sent + [Commit(seed)];
    ok := !fails(Commit(seed));
  }

  /** What a pass may end with. It fails only on a reply that cannot be used or a command that
      ends in an error, and stops there: it sends a prefix of its commands, all of them and without
      an error if it does not fail; and it reports the ring formed exactly when there was nothing to do and as many members are valid
      as there are pods. */
  predicate PassEnds(seed: string, podNames: seq<string>, views: Views, fails: Command -> bool,
                     r: Result, sent: seq<Command>)
  {
    var members := SeedMembers(seed, views);
    var commands := Commands(podNames, seed, views, members);
    match r
    case Failed =>
      && sent <= commands && (SeedNode(members, seed) == "" ==> sent == []) && StopsAtError(sent, fails)
      && (!Readable(seed, podNames, views) || (sent != [] && fails(sent[|sent| - 1])))
    case Formed =>
      sent == commands == [] && Readable(seed, podNames, views) && CountValid(members) == |podNames|
    case NotYet =>
      && sent == commands && AllSucceed(sent, fails)
      && Readable(seed, podNames, views) && (sent != [] || CountValid(members) != |podNames|)
  }

  /** Everything is read, nothing is left to join, and as many members are valid as pods listed. */
  predicate FormedIn(seed: string, podNames: seq<string>, views: Views) {
    && Readable(seed, podNames, views) && Commands(podNames, seed, views, SeedMembers(seed, views)) == []
    && CountValid(SeedMembers(seed, views)) == |podNames|
  }

  /** Which commands would fail does not matter for that. */
  lemma FormedIff(seed: string, podNames: seq<string>, views: Views, fails: Command -> bool, r: Result, sent: seq<Command>)
    requires PassEnds(seed, podNames, views, fails, r, sent)
    ensures r == Formed <==> FormedIn(seed, podNames, views)
    ensures r == Formed ==> sent == []
  {
  }

  /** A pass whose seed could be asked. */
  method PassWith(members: seq<ClusterMember>, seed: string, podNames: seq<string>, views: Views, fails: Command -> bool)
    returns (r: Result, sent: seq<Command>)
    requires views(seed).Some? && members == SeedMembers(seed, views)
    ensures PassEnds(seed, podNames, views, fails, r, sent)
  {
    var inRing, valid, seedNode := ReadSeed(members, seed);
    if seedNode == "" {
      return Failed, [];
    }
    r, sent := JoinAndCommit(podNames, seed, views, inRing, seedNode, fails);
    if r == Formed && valid != |podNames| {
      r := NotYet;
    }
  }

  /** ReconcileMembership. `fails` says which commands end in an error. */
  method ReconcileMembership(cluster: string, podNames: seq<string>, views: Views, fails: Command -> bool)
    returns (r: Result, sent: seq<Command>)
    ensures PassEnds(cluster + "-0", podNames, views, fails, r, sent)
  {
    var seed := Seed(cluster);
    if views(seed).None? {
      return Failed, [];
    }
    var seedMembers := ParseMemberStatus(views(seed).value);
    r, sent := PassWith(seedMembers, seed, podNames, views, fails);
  }

  /** The joins and, if there are any, the plan and the commit. Formed: there was nothing to do. */
  method JoinAndCommit(podNames: seq<string>, seed: string, views: Views, inRing: set<string>, seedNode: string,
                       fails: Command -> bool)
    returns (r: Result, sent: seq<Command>)
    ensures sent <= CommandsFor(ToJoin(podNames, seed, views, inRing), seed, seedNode)
    ensures r != Failed ==> sent == CommandsFor(ToJoin(podNames, seed, views, inRing), seed, seedNode)
    ensures r != Failed ==> AllAnswered(podNames, seed, views) && AllSucceed(sent, fails) && (r == Formed <==> sent == [])
    ensures StopsAtError(sent, fails)
    ensures r == Failed ==> !AllAnswered(podNames, seed, views) || (sent != [] && fails(sent[|sent| - 1]))
  {
    var ok;
    ok, sent := StageJoins(podNames, seed, views, inRing, seedNode, fails);
    if !ok {
      return Failed, sent;
    }
    if |sent| == 0 {
      return Formed, sent;
    }
    var last;
    ok, last := PlanAndCommit(seed, fails);
    sent := sent + last;
    r := if ok then NotYet else Failed;
  }

  lemma {:induction false} ToJoinPrefix(pods: seq<string>, seed: string, views: Views, ring: set<string>, i: nat)
    requires i <= |pods|
    ensures ToJoin(pods[..i], seed, views, ring) <= ToJoin(pods, seed, views, ring)
  {
    if i == |pods| {
      assert pods[..i] == pods;
    } else {
      var n := |pods| - 1;
      ToJoinPrefix(pods[..n], seed, views, ring, i);
      assert pods[..n][..i] == pods[..i];
    }
  }

  // ---------- who is joined, whatever the nodes report ----------

  /** A pod whose own ring is just itself, under a name the seed does not list. */
  predicate Alone(pod: string, seed: string, views: Views) {
    && views(pod).Some? && |Members(views(pod).value)| == 1
    && forall i :: 0 <= i < |SeedMembers(seed, views)| ==> SeedMembers(seed, views)[i].node != Members(views(pod).value)[0].node
  }

  lemma {:induction false} ToJoinIff(pods: seq<string>, seed: string, views: Views, ring: set<string>, p: string)
    ensures p in ToJoin(pods, seed, views, ring) <==> p in pods && JoinsAs(p, seed, views, ring)
  {
    if pods != [] {
      var n := |pods| - 1;
      ToJoinIff(pods[..n], seed, views, ring, p);
      assert pods == pods[..n] + [pods[n]];
    }
  }

  lemma JoinsAreAlone(p: string, seed: string, views: Views)
    requires views(seed).Some?
    ensures JoinsAs(p, seed, views, Nodes(SeedMembers(seed, views))) <==> p != seed && Alone(p, seed, views)
  {
    var members := SeedMembers(seed, views);
    forall node ensures node in Nodes(members) <==> exists i :: 0 <= i < |members| && members[i].node == node { }
  }

  /** The seed's own node is the last member of its list named after it. */
  lemma {:induction false} SeedNodeIsLast(members: seq<ClusterMember>, seed: string) returns (i: nat)
    requires SeedNode(members, seed) != ""
    ensures i < |members| && members[i].node == SeedNode(members, seed)
    ensures members[i].node == "riak@" + seed || "riak@" + seed + "." <= members[i].node
    ensures forall k :: i < k < |members| ==>
              !(members[k].node == "riak@" + seed || "riak@" + seed + "." <= members[k].node)
  {
    var n := |members| - 1;
    i := n;
    if !IsSeedNode(members[n].node, seed) {
      i := SeedNodeIsLast(members[..n], seed);
    }
  }

  lemma SentJoin(joining: seq<string>, seed: string, node: string, p: string, t: string)
    ensures Join(p, t) in CommandsFor(joining, seed, node) <==> p in joining && t == node
  {
    var joins, cmds := JoinAll(joining, node), CommandsFor(joining, seed, node);
    if p in joining && t == node {
      var i :| 0 <= i < |joining| && joining[i] == p;
      assert joins[i] == Join(p, t) && cmds[i] == joins[i];
    }
    if Join(p, t) in cmds {
      var i :| 0 <= i < |cmds| && cmds[i] == Join(p, t);
      assert i < |joins| && joins[i] == Join(joining[i], node);
    }
  }

  /** In every pass, whatever anybody reports, a join is sent only to the seed's own node, only on a
      listed pod other than the seed, and only if the pod is alone: a pod that sees others, of the
      seed's ring or of a stray one, is never joined. A pass that does not fail joins all such pods. */
  lemma JoinsExactlyAlone(seed: string, podNames: seq<string>, views: Views, fails: Command -> bool,
                          r: Result, sent: seq<Command>, p: string, t: string)
    requires PassEnds(seed, podNames, views, fails, r, sent)
    ensures Join(p, t) in sent ==>
              && p in podNames && p != seed && Alone(p, seed, views)
              && t != "" && t == SeedNode(SeedMembers(seed, views), seed)
    ensures r != Failed && p in podNames && p != seed && Alone(p, seed, views) ==>
              Join(p, SeedNode(SeedMembers(seed, views), seed)) in sent
    ensures r != Failed && (forall q :: q in podNames && q != seed ==> !Alone(q, seed, views)) ==> sent == []
  {
    var members := SeedMembers(seed, views);
    var joining, node := ToJoin(podNames, seed, views, Nodes(members)), SeedNode(members, seed);
    if views(seed).Some? {
      ToJoinIff(podNames, seed, views, Nodes(members), p);
      JoinsAreAlone(p, seed, views);
      SentJoin(joining, seed, node, p, t);
      SentJoin(joining, seed, node, p, node);
      if joining != [] {
        ToJoinIff(podNames, seed, views, Nodes(members), joining[0]);
        JoinsAreAlone(joining[0], seed, views);
      }
    }
  }

  // ---------- the ring ----------

  /** The pods in the seed's committed ring, and those whose join is staged. */
  datatype Ring = Ring(inRing: set<string>, staged: set<string>)

  /** Pod names hold no dot, so a node name tells its pod: an Erlang name is the pod, or the pod
      in the cluster's domain. */
  predicate PodLabel(pod: string) { Word(pod) && '.' !in pod }

  predicate Domain(suffix: string) { suffix == "" || (Word(suffix) && suffix[0] == '.') }

  function NodeName(pod: string, suffix: string): string { "riak@" + pod + suffix }

  function Row(pod: string, suffix: string): ClusterMember { ClusterMember("valid", NodeName(pod, suffix)) }

  function Rows(order: seq<string>, suffix: string): (r: seq<ClusterMember>)
    ensures |r| == |order|
  {
    seq(|order|, i requires 0 <= i < |order| => Row(order[i], suffix))
  }

  /** The members of a ring, each once and valid, in some order. */
  ghost predicate ShowsRing(members: seq<ClusterMember>, ring: set<string>, suffix: string) {
    exists order :: Distinct(order) && Elements(order) == ring && members == Rows(order, suffix)
  }

  /** Who sees what, where a reply came at all: the seed sees its ring, a pod outside sees only
      itself, and a pod in the ring sees the ring or, while its view lags, still only itself. */
  ghost predicate SomeViewsOf(ring: Ring, seed: string, pods: seq<string>, suffix: string, views: Views) {
    && (views(seed).Some? ==> ShowsRing(Members(views(seed).value), ring.inRing, suffix))
    && (forall p :: p in pods && p != seed && views(p).Some? ==>
          || Members(views(p).value) == [Row(p, suffix)]
          || (p in ring.inRing && ShowsRing(Members(views(p).value), ring.inRing, suffix)))
  }

  /** Every pod replied. */
  ghost predicate ViewsOf(ring: Ring, seed: string, pods: seq<string>, suffix: string, views: Views) {
    && SomeViewsOf(ring, seed, pods, suffix, views)
    && views(seed).Some? && forall p :: p in pods ==> views(p).Some?
  }

  function Apply(ring: Ring, cmd: Command, seedNode: string): Ring {
    match cmd
    case Join(pod, target) => if target == seedNode then ring.(staged := ring.staged + {pod}) else ring
    case Plan(_) => ring
    case Commit(_) => Ring(ring.inRing + ring.staged, {})
  }

  function ApplyAll(ring: Ring, cmds: seq<Command>, seedNode: string): Ring {
    if cmds == [] then ring
    else Apply(ApplyAll(ring, cmds[..|cmds| - 1], seedNode), cmds[|cmds| - 1], seedNode)
  }

  /** The listed pods outside a ring, in order. */
  function Outside(pods: seq<string>, ring: set<string>): seq<string> {
    if pods == [] then []
    else Outside(pods[..|pods| - 1], ring) + (if pods[|pods| - 1] in ring then [] else [pods[|pods| - 1]])
  }

  lemma {:induction false} OutsideIff(pods: seq<string>, ring: set<string>, p: string)
    ensures p in Outside(pods, ring) <==> p in pods && p !in ring
  {
    if pods != [] {
      var n := |pods| - 1;
      OutsideIff(pods[..n], ring, p);
      assert pods == pods[..n] + [pods[n]];
    }
  }

  /** Different pods have different node names, and only the seed's fits the seed. */
  lemma NodeNamesTellPods(p: string, q: string, suffix: string)
    requires PodLabel(p) && PodLabel(q) && Domain(suffix)
    ensures NodeName(p, suffix) == NodeName(q, suffix) ==> p == q
    ensures IsSeedNode(NodeName(p, suffix), q) <==> p == q
    ensures NodeName(p, suffix) != ""
  {
    var at := "riak@";
    assert NodeName(p, suffix) == at + (p + suffix);
    assert NodeName(p, suffix)[|at|..] == p + suffix;
    assert NodeName(q, suffix)[|at|..] == q + suffix;
    assert (at + q)[|at|..] == q;
    if NodeName(p, suffix) == NodeName(q, suffix) {
      SameLabel(p, suffix, q, suffix);
    }
    if NodeName(p, suffix) == at + q {
      assert q == q + "";
      SameLabel(p, suffix, q, "");
    }
    if HasPrefix(NodeName(p, suffix), at + q + ".") {
      var rest := NodeName(p, suffix)[|at + q + "."|..];
      assert NodeName(p, suffix) == at + (q + ("." + rest));
      assert p + suffix == q + ("." + rest);
      SameLabel(p, suffix, q, "." + rest);
    }
    if p == q {
      if suffix == "" {
        assert NodeName(p, suffix) == at + q;
      } else {
        assert at + q + "." <= NodeName(p, suffix);
      }
    }
  }

  lemma SameLabel(p: string, s: string, q: string, t: string)
    requires '.' !in p && '.' !in q && p + s == q + t
    requires s == "" || s[0] == '.'
    requires t == "" || t[0] == '.'
    ensures p == q
  {
    var u := p + s;
    assert |p| < |u| ==> u[|p|] == '.';
    assert |q| < |u| ==> u[|q|] == '.';
    assert forall k :: 0 <= k < |p| ==> u[k] == p[k];
    assert forall k :: 0 <= k < |q| ==> u[k] == q[k];
    assert u[..|p|] == p && u[..|q|] == q;
  }

  lemma {:induction false} SeedNodeOfRows(order: seq<string>, suffix: string, seed: string)
    requires seed in order && Domain(suffix) && forall p :: p in order ==> PodLabel(p)
    ensures SeedNode(Rows(order, suffix), seed) == NodeName(seed, suffix)
  {
    var n := |order| - 1;
    var rows := Rows(order, suffix);
    NodeNamesTellPods(order[n], seed, suffix);
    if order[n] != seed {
      assert rows[..n] == Rows(order[..n], suffix);
      SeedNodeOfRows(order[..n], suffix, seed);
    }
  }

  lemma {:induction false} RowsAllValid(order: seq<string>, suffix: string)
    ensures CountValid(Rows(order, suffix)) == |order|
  {
    CountValidAll(Rows(order, suffix));
  }

  /** What the seed's reply says about the ring. */
  lemma SeedReply(members: seq<ClusterMember>, ring: set<string>, suffix: string, seed: string, p: string)
    requires ShowsRing(members, ring, suffix) && seed in ring && Domain(suffix) && PodLabel(p)
    requires forall q :: q in ring ==> PodLabel(q)
    ensures SeedNode(members, seed) == NodeName(seed, suffix) && CountValid(members) == |ring|
    ensures NodeName(p, suffix) in Nodes(members) <==> p in ring
  {
    var order :| Distinct(order) && Elements(order) == ring && members == Rows(order, suffix);
    assert forall q :: q in order <==> q in Elements(order);
    SeedNodeOfRows(order, suffix, seed);
    RowsAllValid(order, suffix);
    DistinctCount(order);
    if NodeName(p, suffix) in Nodes(members) {
      var i :| 0 <= i < |order| && members[i].node == NodeName(p, suffix);
      NodeNamesTellPods(order[i], p, suffix);
      assert order[i] in order;
    }
    if p in ring {
      var i :| 0 <= i < |order| && order[i] == p;
      assert members[i].node == NodeName(p, suffix);
    }
  }

  /** A ring around the seed of some of the listed pods. Joins may be staged already, by a pass
      that failed before its commit. */
  ghost predicate Shape(ring: Ring, seed: string, pods: seq<string>, suffix: string) {
    && Distinct(pods) && Domain(suffix) && (forall p :: p in pods ==> PodLabel(p))
    && seed in ring.inRing && ring.inRing <= Elements(pods) && ring.staged <= Elements(pods) - ring.inRing
  }

  /** What a pass can start from, when every pod replies. */
  ghost predicate Start(ring: Ring, seed: string, pods: seq<string>, suffix: string, views: Views) {
    Shape(ring, seed, pods, suffix) && ViewsOf(ring, seed, pods, suffix, views)
  }

  lemma StartMember(ring: Ring, seed: string, pods: seq<string>, suffix: string, views: Views, p: string)
    requires Shape(ring, seed, pods, suffix) && SomeViewsOf(ring, seed, pods, suffix, views)
    requires views(seed).Some? && p in pods
    ensures var members := Members(views(seed).value);
            && SeedNode(members, seed) == NodeName(seed, suffix)
            && CountValid(members) == |ring.inRing|
            && (JoinsAs(p, seed, views, Nodes(members)) <==> p !in ring.inRing && views(p).Some?)
  {
    var members := Members(views(seed).value);
    assert forall q :: q in ring.inRing ==> q in pods by {
      assert forall q :: q in Elements(pods) ==> q in pods;
    }
    SeedReply(members, ring.inRing, suffix, seed, p);
    if p != seed && views(p).Some? && Members(views(p).value) != [Row(p, suffix)] {
      var order :| Distinct(order) && Elements(order) == ring.inRing && Members(views(p).value) == Rows(order, suffix);
      if |order| == 1 {
        assert order[0] in Elements(order);
        SeedReply(members, ring.inRing, suffix, seed, order[0]);
      }
    }
  }

  lemma {:induction false} JoinsOutside(ring: Ring, seed: string, pods: seq<string>, suffix: string, views: Views, n: nat)
    requires Start(ring, seed, pods, suffix, views) && n <= |pods|
    ensures var members := Members(views(seed).value);
            ToJoin(pods[..n], seed, views, Nodes(members)) == Outside(pods[..n], ring.inRing)
    ensures AllAnswered(pods[..n], seed, views)
  {
    if n > 0 {
      JoinsOutside(ring, seed, pods, suffix, views, n - 1);
      assert pods[..n][..n - 1] == pods[..n - 1];
      assert pods[n - 1] in pods;
      StartMember(ring, seed, pods, suffix, views, pods[n - 1]);
    }
  }

  lemma {:induction false} JoinsStage(ring: Ring, pods: seq<string>, seedNode: string)
    ensures ApplyAll(ring, JoinAll(pods, seedNode), seedNode) == ring.(staged := ring.staged + Elements(pods))
  {
    if pods == [] {
      assert ring.staged + Elements([]) == ring.staged;
    } else {
      var n := |pods| - 1;
      JoinsStage(ring, pods[..n], seedNode);
      assert JoinAll(pods, seedNode)[..n] == JoinAll(pods[..n], seedNode);
      assert pods == pods[..n] + [pods[n]];
      assert Elements(pods) == Elements(pods[..n]) + {pods[n]};
    }
  }

  /** Joins for some pods, then plan and commit, leave them and whoever was staged in the ring. */
  lemma CommitAdmitsStaged(ring: Ring, joining: seq<string>, seed: string, node: string)
    requires joining != []
    ensures var joins := JoinAll(joining, node);
            && ApplyAll(ring, joins + [Plan(seed)], node) == ApplyAll(ring, joins, node)
            && ApplyAll(ring, joins + [Plan(seed), Commit(seed)], node) == Ring(ring.inRing + ring.staged + Elements(joining), {})
  {
    var joins := JoinAll(joining, node);
    JoinsStage(ring, joining, node);
    var planned := joins + [Plan(seed)];
    var all := joins + [Plan(seed), Commit(seed)];
    assert all[..|all| - 1] == planned;
    assert planned[..|joins|] == joins;
    assert ring.inRing + (ring.staged + Elements(joining)) == ring.inRing + ring.staged + Elements(joining);
  }

  lemma OutsideElements(pods: seq<string>, ring: set<string>)
    requires ring <= Elements(pods)
    ensures ring + Elements(Outside(pods, ring)) == Elements(pods)
    ensures Outside(pods, ring) == [] <==> ring == Elements(pods)
  {
    var outside := Outside(pods, ring);
    forall p ensures p in outside <==> p in Elements(pods) - ring { OutsideIff(pods, ring, p); }
    if outside != [] {
      assert outside[0] in outside;
    }
  }

  /** One error-free pass stages a join to the seed for exactly the pods outside, plans and
      commits once if there are any, and after the commit every listed pod is in the ring. */
  lemma PassJoinsExactlyOutside(ring: Ring, seed: string, pods: seq<string>, suffix: string, views: Views)
    requires Start(ring, seed, pods, suffix, views)
    ensures Readable(seed, pods, views)
    ensures var members, outside := Members(views(seed).value), Outside(pods, ring.inRing);
            && Commands(pods, seed, views, members) ==
                 JoinAll(outside, NodeName(seed, suffix)) + (if outside == [] then [] else [Plan(seed), Commit(seed)])
            && ApplyAll(ring, Commands(pods, seed, views, members), NodeName(seed, suffix)) == Ring(Elements(pods), {})
            && CountValid(members) == |ring.inRing|
            && (outside == [] <==> ring.inRing == Elements(pods))
  {
    var members, outside := Members(views(seed).value), Outside(pods, ring.inRing);
    assert seed in Elements(pods);
    JoinsOutside(ring, seed, pods, suffix, views, |pods|);
    assert pods[..|pods|] == pods;
    StartMember(ring, seed, pods, suffix, views, seed);
    NodeNamesTellPods(seed, seed, suffix);
    OutsideElements(pods, ring.inRing);
    AdmitsOutside(ring, pods, seed, NodeName(seed, suffix));
  }

  lemma AdmitsOutside(ring: Ring, pods: seq<string>, seed: string, node: string)
    requires ring.inRing <= Elements(pods) && ring.staged <= Elements(pods) - ring.inRing
    ensures var outside := Outside(pods, ring.inRing);
            ApplyAll(ring, CommandsFor(outside, seed, node), node) == Ring(Elements(pods), {})
  {
    var outside := Outside(pods, ring.inRing);
    OutsideElements(pods, ring.inRing);
    if outside == [] {
      assert CommandsFor(outside, seed, node) == [];
      assert ring.staged == {};
    } else {
      CommitAdmitsStaged(ring, outside, seed, node);
      assert ring.inRing + ring.staged + Elements(outside) == Elements(pods);
    }
  }

  // ---------- any number of passes ----------

  /** A pass that has been: what it read, which commands failed, how it ended and what it sent. A
      last command that failed may have taken effect or not. */
  datatype Past = Past(views: Views, fails: Command -> bool, result: Result, sent: seq<Command>, landed: bool) {
    function Effective(): seq<Command> {
      if result == Failed && sent != [] && !landed then sent[..|sent| - 1] else sent
    }
  }

  function RingAfter(ring: Ring, passes: seq<Past>, seedNode: string): Ring {
    if passes == [] then ring
    else ApplyAll(RingAfter(ring, passes[..|passes| - 1], seedNode), passes[|passes| - 1].Effective(), seedNode)
  }

  /** Passes one after the other, each on the ring it found, whatever failed in them. */
  ghost predicate ArePasses(ring: Ring, seed: string, pods: seq<string>, suffix: string, passes: seq<Past>) {
    passes == [] ||
    (var before, last := passes[..|passes| - 1], passes[|passes| - 1];
     && ArePasses(ring, seed, pods, suffix, before)
     && SomeViewsOf(RingAfter(ring, before, NodeName(seed, suffix)), seed, pods, suffix, last.views)
     && PassEnds(seed, pods, last.views, last.fails, last.result, last.sent))
  }

  /** However many of a pass's commands take effect, only pods outside are staged, and only a commit
      lets them in. */
  lemma PrefixKeepsShape(ring: Ring, seed: string, pods: seq<string>, suffix: string, joining: seq<string>, sent: seq<Command>)
    requires Shape(ring, seed, pods, suffix) && forall p :: p in joining ==> p in pods && p !in ring.inRing
    requires sent <= CommandsFor(joining, seed, NodeName(seed, suffix))
    ensures Shape(ApplyAll(ring, sent, NodeName(seed, suffix)), seed, pods, suffix)
  {
    var node, k := NodeName(seed, suffix), |sent|;
    var joins := JoinAll(joining, node);
    if k <= |joining| {
      assert sent == JoinAll(joining[..k], node);
      JoinsStage(ring, joining[..k], node);
      assert forall p :: p in Elements(joining[..k]) ==> p in joining;
    } else {
      JoinsStage(ring, joining, node);
      CommitAdmitsStaged(ring, joining, seed, node);
      assert forall p :: p in Elements(joining) ==> p in joining;
      if k == |joining| + 1 {
        assert sent == joins + [Plan(seed)];
      } else {
        assert sent == joins + [Plan(seed), Commit(seed)];
      }
    }
  }

  lemma PassKeepsShape(ring: Ring, seed: string, pods: seq<string>, suffix: string, pass: Past)
    requires Shape(ring, seed, pods, suffix) && SomeViewsOf(ring, seed, pods, suffix, pass.views)
    requires PassEnds(seed, pods, pass.views, pass.fails, pass.result, pass.sent)
    ensures Shape(ApplyAll(ring, pass.Effective(), NodeName(seed, suffix)), seed, pods, suffix)
  {
    var members := SeedMembers(seed, pass.views);
    if pass.views(seed).None? {
      assert pass.Effective() == [];
    } else {
      assert seed in pods by { assert seed in Elements(pods); }
      StartMember(ring, seed, pods, suffix, pass.views, seed);
      var joining := ToJoin(pods, seed, pass.views, Nodes(members));
      forall p | p in joining ensures p in pods && p !in ring.inRing {
        ToJoinIff(pods, seed, pass.views, Nodes(members), p);
        StartMember(ring, seed, pods, suffix, pass.views, p);
      }
      PrefixKeepsShape(ring, seed, pods, suffix, joining, pass.Effective());
    }
  }

  lemma {:induction false} PassesKeepShape(ring: Ring, seed: string, pods: seq<string>, suffix: string, passes: seq<Past>)
    requires Shape(ring, seed, pods, suffix) && ArePasses(ring, seed, pods, suffix, passes)
    ensures Shape(RingAfter(ring, passes, NodeName(seed, suffix)), seed, pods, suffix)
  {
    if passes != [] {
      var n := |passes| - 1;
      PassesKeepShape(ring, seed, pods, suffix, passes[..n]);
      PassKeepsShape(RingAfter(ring, passes[..n], NodeName(seed, suffix)), seed, pods, suffix, passes[n]);
    }
  }

  /** An error-free pass: what it sends and reports, and the ring it leaves. */
  lemma ErrorFreePass(ring: Ring, seed: string, pods: seq<string>, suffix: string, pass: Past)
    requires Start(ring, seed, pods, suffix, pass.views) && pass.result != Failed
    requires PassEnds(seed, pods, pass.views, pass.fails, pass.result, pass.sent)
    ensures pass.result == (if ring.inRing == Elements(pods) then Formed else NotYet)
    ensures pass.sent == CommandsFor(Outside(pods, ring.inRing), seed, NodeName(seed, suffix))
    ensures ApplyAll(ring, pass.Effective(), NodeName(seed, suffix)) == Ring(Elements(pods), {})
  {
    PassJoinsExactlyOutside(ring, seed, pods, suffix, pass.views);
    FormedIff(seed, pods, pass.views, pass.fails, pass.result, pass.sent);
    DistinctCount(pods);
  }

  /** From any ring of some of the pods, and after any number of passes that failed anywhere, one
      error-free pass brings every pod in, and every pass after it sends nothing and reports the ring
      formed, whatever lag it meets in the pods' own views. */
  lemma MembershipConverges(ring: Ring, seed: string, pods: seq<string>, suffix: string, passes: seq<Past>,
                            first: Past, second: Past)
    requires Shape(ring, seed, pods, suffix) && ArePasses(ring, seed, pods, suffix, passes + [first])
    requires ViewsOf(RingAfter(ring, passes, NodeName(seed, suffix)), seed, pods, suffix, first.views)
    requires first.result != Failed
    requires ViewsOf(RingAfter(ring, passes + [first], NodeName(seed, suffix)), seed, pods, suffix, second.views)
    requires PassEnds(seed, pods, second.views, second.fails, second.result, second.sent)
    ensures RingAfter(ring, passes + [first], NodeName(seed, suffix)) == Ring(Elements(pods), {})
    ensures second.result == Formed && second.sent == []
  {
    var node := NodeName(seed, suffix);
    assert (passes + [first])[..|passes|] == passes;
    PassesKeepShape(ring, seed, pods, suffix, passes);
    ErrorFreePass(RingAfter(ring, passes, node), seed, pods, suffix, first);
    var formed := Ring(Elements(pods), {});
    assert Shape(formed, seed, pods, suffix);
    PassJoinsExactlyOutside(formed, seed, pods, suffix, second.views);
    DistinctCount(pods);
    FormedIff(seed, pods, second.views, second.fails, second.result, second.sent);
  }

  // ---------- such replies exist ----------

  function RowLine(pod: string, suffix: string): StatusLine {
    MemberRow("", " ", " ", " ", "", Row(pod, suffix), "20.0%", "--")
  }

  lemma RowLineValid(pod: string, suffix: string)
    requires PodLabel(pod) && Domain(suffix)
    ensures RowLine(pod, suffix).Valid()
  {
    assert Word("riak@") && Word(NodeName(pod, suffix));
    assert HasPrefix(NodeName(pod, suffix), "riak@");
  }

  lemma {:induction false} LinesOf(order: seq<string>, suffix: string) returns (lines: seq<StatusLine>)
    requires Domain(suffix) && forall p :: p in order ==> PodLabel(p)
    ensures |lines| == |order| && (forall i :: 0 <= i < |lines| ==> lines[i].Valid())
    ensures Printed(lines) == Rows(order, suffix)
  {
    if order == [] {
      lines := [];
    } else {
      RowLineValid(order[0], suffix);
      var rest := LinesOf(order[1..], suffix);
      lines := [RowLine(order[0], suffix)] + rest;
      assert lines[1..] == rest;
      assert Rows(order, suffix) == [Row(order[0], suffix)] + Rows(order[1..], suffix);
    }
  }

  /** Every ring, in every order, has a member-status table that reads back as it. */
  lemma RingIsPrintable(order: seq<string>, suffix: string) returns (output: string)
    requires order != [] && Domain(suffix) && forall p :: p in order ==> PodLabel(p)
    ensures Members(output) == Rows(order, suffix)
  {
    var lines := LinesOf(order, suffix);
    MembersAreReadBack(lines);
    output := Text.Join(Texts(lines), '\n');
  }

  // ---------- what "formed" means, whatever the nodes report ----------

  /** The pods that own a valid member. */
  function ValidPods(members: seq<ClusterMember>, owner: string -> string): set<string> {
    set m | m in members && m.status == "valid" :: owner(m.node)
  }

  lemma ValidPodsSnoc(before: seq<ClusterMember>, m: ClusterMember, owner: string -> string)
    ensures ValidPods(before + [m], owner) == ValidPods(before, owner) + (if m.status == "valid" then {owner(m.node)} else {})
  {
  }

  lemma CountValidSnoc(before: seq<ClusterMember>, m: ClusterMember)
    ensures CountValid(before + [m]) == CountValid(before) + (if m.status == "valid" then 1 else 0)
  {
    assert (before + [m])[..|before|] == before;
  }

  lemma {:induction false} ValidPodsCount(members: seq<ClusterMember>, owner: string -> string)
    requires forall i, j :: 0 <= i < j < |members| ==> owner(members[i].node) != owner(members[j].node)
    ensures |ValidPods(members, owner)| == CountValid(members)
  {
    if members != [] {
      var n := |members| - 1;
      var before, m := members[..n], members[n];
      ValidPodsCount(before, owner);
      assert members == before + [m];
      ValidPodsSnoc(before, m, owner);
      CountValidSnoc(before, m);
      assert owner(m.node) !in ValidPods(before, owner);
    }
  }

  /** If the members of the seed's ring belong to distinct listed pods and as many are valid as
      there are pods listed, then every listed pod has a valid member. */
  lemma FormedMeansAllValid(members: seq<ClusterMember>, pods: seq<string>, owner: string -> string, pod: string)
    requires Distinct(pods) && CountValid(members) == |pods| && pod in pods
    requires forall i :: 0 <= i < |members| ==> owner(members[i].node) in pods
    requires forall i, j :: 0 <= i < j < |members| ==> owner(members[i].node) != owner(members[j].node)
    ensures exists m :: m in members && m.status == "valid" && owner(m.node) == pod
  {
    ValidPodsCount(members, owner);
    DistinctCount(pods);
    SameSizeSubset(ValidPods(members, owner), Elements(pods));
    assert pod in Elements(pods);
  }

  // ---------- the Ready gate ----------

  datatype PodState = PodState(name: string, ready: bool)

  datatype Phase = Creating | Ready

  /** Why the Ready condition has the value it has. */
  datatype ReadyReason = ClusterReady | FormingCluster | AwaitingPods(count: int)

  function CountReady(pods: seq<PodState>): nat {
    if pods == [] then 0
    else CountReady(pods[..|pods| - 1]) + (if pods[|pods| - 1].ready then 1 else 0)
  }

  function Names(pods: seq<PodState>): seq<string> {
    seq(|pods|, i requires 0 <= i < |pods| => pods[i].name)
  }

  /** The count is the number of ready pods. */
  lemma {:induction false} ReadyPodsCounted(pods: seq<PodState>)
    ensures CountReady(pods) == |set i | 0 <= i < |pods| && pods[i].ready|
  {
    var ready := set i | 0 <= i < |pods| && pods[i].ready;
    if pods == [] {
      assert ready == {};
    } else {
      var n := |pods| - 1;
      ReadyPodsCounted(pods[..n]);
      var before := set i | 0 <= i < |pods[..n]| && pods[..n][i].ready;
      assert ready == before + (if pods[n].ready then {n} else {});
    }
  }

  class ClusterStatus {
    const name: string
    const size: int
    var phase: Phase
    var reason: ReadyReason
    var readyNodes: int
    var totalNodes: int

    constructor (name: string, size: int)
      ensures this.name == name && this.size == size && phase == Creating
    {
      this.name := name;
      this.size := size;
      phase, reason := Creating, AwaitingPods(size);
      readyNodes, totalNodes := 0, size;
    }

    /** updateClusterStatus: the ring is only looked at once every pod is ready, and only with
        more than one node. */
    method Update(pods: seq<PodState>, views: Views, fails: Command -> bool) returns (sent: seq<Command>)
      modifies this
      ensures readyNodes == CountReady(pods) && totalNodes == size
      ensures CountReady(pods) != size || size <= 1 ==> sent == []
      ensures phase == Ready <==> CountReady(pods) == size && (size > 1 ==> FormedIn(name + "-0", Names(pods), views))
      ensures phase == Ready ==> sent == []
      ensures reason == if phase == Ready then ClusterReady
                        else if CountReady(pods) == size then FormingCluster
                        else AwaitingPods(size - CountReady(pods))
    {
      var readyCount := 0;
      for i := 0 to |pods|
        invariant readyCount == CountReady(pods[..i])
      {
        assert pods[..i + 1][..i] == pods[..i];
        if pods[i].ready {
          readyCount := readyCount + 1;
        }
      }
      assert pods[..|pods|] == pods;
      var allReady, formed := readyCount == size, true;
      sent := [];
      if allReady && size > 1 {
        var r;
        r, sent := ReconcileMembership(name, Names(pods), views, fails);
        FormedIff(Seed(name), Names(pods), views, fails, r, sent);
        formed := r == Formed;
      }
      readyNodes, totalNodes := readyCount, size;
      if allReady && formed {
        phase, reason := Ready, ClusterReady;
      } else if allReady {
        phase, reason := Creating, FormingCluster;
      } else {
        phase, reason := Creating, AwaitingPods(size - readyCount);
      }
    }
  }

  /** A multi-node cluster that is Ready, where the seed's members belong to distinct listed pods, is
      one ring in which every listed pod has a valid member. */
  lemma ReadyMeansOneRing(name: string, pods: seq<PodState>, views: Views, owner: string -> string, pod: string)
    requires FormedIn(Seed(name), Names(pods), views) && Distinct(Names(pods)) && pod in Names(pods)
    requires var members := SeedMembers(Seed(name), views);
             && (forall i :: 0 <= i < |members| ==> owner(members[i].node) in Names(pods))
             && (forall i, j :: 0 <= i < j < |members| ==> owner(members[i].node) != owner(members[j].node))
    ensures exists m :: m in SeedMembers(Seed(name), views) && m.status == "valid" && owner(m.node) == pod
  {
    FormedMeansAllValid(SeedMembers(Seed(name), views), Names(pods), owner, pod);
  }

  /** With nodes that report their ring, it is Ready if and only if every pod is in the ring. */
  lemma ReadyIffOneRing(ring: Ring, name: string, pods: seq<PodState>, suffix: string, views: Views)
    requires Start(ring, Seed(name), Names(pods), suffix, views)
    ensures FormedIn(Seed(name), Names(pods), views) <==> ring.inRing == Elements(Names(pods))
  {
    PassJoinsExactlyOutside(ring, Seed(name), Names(pods), suffix, views);
    DistinctCount(Names(pods));
  }
}
