/** The soak monitor: what it observes, and its decide / apply / applied loop over a whole run
    (test/scale/soak.go). */
module SoakMonitor {
  import opened SoakScaler
  import opened Counting

  // ---------- counting OOM kills ----------

  datatype Container = Container(name: string, restarts: nat, oomKilled: bool)

  datatype PodStatus = PodStatus(name: string, containers: seq<Container>)

  /** A kill is told apart by its pod and restart number. */
  type Kill = (string, nat)

  const RIAK := "riak"

  function KillsIn(pod: string, containers: seq<Container>): set<Kill> {
    if containers == [] then {}
    else
      var c := containers[|containers| - 1];
      KillsIn(pod, containers[..|containers| - 1])
      + (if c.name == RIAK && c.oomKilled then {(pod, c.restarts)} else {})
  }

  function AllKills(pods: seq<PodStatus>): set<Kill> {
    if pods == [] then {}
    else AllKills(pods[..|pods| - 1]) + KillsIn(pods[|pods| - 1].name, pods[|pods| - 1].containers)
  }

  function Restarts(containers: seq<Container>): nat {
    if containers == [] then 0
    else Restarts(containers[..|containers| - 1])
         + (if containers[|containers| - 1].name == RIAK then containers[|containers| - 1].restarts else 0)
  }

  function AllRestarts(pods: seq<PodStatus>): nat {
    if pods == [] then 0 else AllRestarts(pods[..|pods| - 1]) + Restarts(pods[|pods| - 1].containers)
  }

  class OomCounter {
    var seen: set<Kill>
    var oomKills: int
    var restarts: int

    /** The counter is the number of kills seen. */
    ghost predicate Valid()
      reads this
    {
      oomKills == |seen|
    }

    constructor ()
      ensures Valid() && seen == {}
    {
      seen, oomKills, restarts := {}, 0, 0;
    }

    /** The kills and restarts of observePods: every kill shown counts once, ever. */
    method Observe(pods: seq<PodStatus>)
      requires Valid()
      modifies this
      ensures Valid() && seen == old(seen) + AllKills(pods)
      ensures restarts == AllRestarts(pods)
      ensures oomKills >= old(oomKills)
    {
      var count := 0;
      for i := 0 to |pods|
        invariant Valid() && seen == old(seen) + AllKills(pods[..i]) && oomKills >= old(oomKills)
        invariant count == AllRestarts(pods[..i])
      {
        assert pods[..i + 1][..i] == pods[..i];
        count := count + Restarts(pods[i].containers);
        ObserveContainers(pods[i].name, pods[i].containers);
      }
      assert pods[..|pods|] == pods;
      restarts := count;
    }

    method ObserveContainers(pod: string, containers: seq<Container>)
      requires Valid()
      modifies this`seen, this`oomKills
      ensures Valid() && seen == old(seen) + KillsIn(pod, containers) && oomKills >= old(oomKills)
    {
      for i := 0 to |containers|
        invariant Valid() && seen == old(seen) + KillsIn(pod, containers[..i]) && oomKills >= old(oomKills)
      {
        var cs := containers[i];
        KillsSnoc(pod, containers, i);
        if cs.name != RIAK {
          continue;
        }
        if cs.oomKilled {
          var key := (pod, cs.restarts);
          if key !in seen {
            seen := seen + {key};
            oomKills := oomKills + 1;
          }
        }
      }
      assert containers[..|containers|] == containers;
    }
  }

  lemma KillsSnoc(pod: string, containers: seq<Container>, i: nat)
    requires i < |containers|
    ensures KillsIn(pod, containers[..i + 1]) == KillsIn(pod, containers[..i])
            + (if containers[i].name == RIAK && containers[i].oomKilled then {(pod, containers[i].restarts)} else {})
  {
    assert containers[..i + 1][..i] == containers[..i];
  }

  lemma {:induction false} KillIn(pod: string, containers: seq<Container>, kill: Kill)
    ensures kill in KillsIn(pod, containers) <==>
            exists j :: 0 <= j < |containers| && containers[j].name == "riak" && containers[j].oomKilled
              && kill == (pod, containers[j].restarts)
  {
    if containers != [] {
      var n := |containers| - 1;
      KillIn(pod, containers[..n], kill);
      assert containers == containers[..n] + [containers[n]];
    }
  }

  /** A container that was killed for memory. */
  predicate Shows(pod: PodStatus, j: int, kill: Kill) {
    && 0 <= j < |pod.containers| && pod.containers[j].name == "riak" && pod.containers[j].oomKilled
    && kill == (pod.name, pod.containers[j].restarts)
  }

  /** The kills counted are those of the Riak containers that were killed for memory, each told apart by
      its pod and restart number. */
  lemma {:induction false} KillsShown(pods: seq<PodStatus>, kill: Kill)
    ensures kill in AllKills(pods) <==> exists i, j :: 0 <= i < |pods| && Shows(pods[i], j, kill)
  {
    if pods != [] {
      var n := |pods| - 1;
      KillsShown(pods[..n], kill);
      KillIn(pods[n].name, pods[n].containers, kill);
      assert pods == pods[..n] + [pods[n]];
      if j :| 0 <= j < |pods[n].containers| && pods[n].containers[j].name == "riak" && pods[n].containers[j].oomKilled
              && kill == (pods[n].name, pods[n].containers[j].restarts) {
        assert Shows(pods[n], j, kill);
      }
      if i, j :| 0 <= i < |pods[..n]| && Shows(pods[..n][i], j, kill) {
        assert Shows(pods[i], j, kill);
      }
    }
  }

  /** The restarts are summed over the Riak containers: they add up over pods and containers, and one
      container counts its own if it is Riak's. */
  lemma {:induction false} RestartsAddUp(pods: seq<PodStatus>, pod: PodStatus, c: Container)
    ensures AllRestarts(pods + [pod]) == AllRestarts(pods) + AllRestarts([pod])
    ensures AllRestarts([pod.(containers := pod.containers + [c])]) ==
            AllRestarts([pod]) + (if c.name == "riak" then c.restarts else 0)
    ensures AllRestarts([]) == 0 && AllRestarts([pod.(containers := [])]) == 0
  {
    assert (pods + [pod])[..|pods|] == pods;
    assert [pod][..0] == [];
    var more := pod.(containers := pod.containers + [c]);
    assert [more][..0] == [];
    assert more.containers[..|pod.containers|] == pod.containers;
    assert [pod.(containers := [])][..0] == [];
  }

  // ---------- the loop ----------

  /** How applying an action ends: stored, refused, or stored with the answer lost. */
  datatype Applying = Stored | Refused | AnswerLost

  /** One turn of the monitor that could observe the cluster: the pods it saw, what else it
      measured, whether the scaler is asked, when it decides, and when applying the action ended. */
  datatype Turn = Turn(pods: seq<PodStatus>, measured: Sample, asked: bool, now: int, doneAt: int, applying: Applying)

  /** An action that took effect: when it was decided and done, on which cause, which samples it
      looked at, which kills are charged to it, whether it added a node, and whether its answer came
      back. */
  datatype Entry = Entry(decidedAt: int, doneAt: int, cause: Cause, from: int, to: int, kills: set<Kill>,
                         added: bool, answered: bool)

  /** The scaler and the monitor. `charged` are the kills seen by the last answered action; the
      log lists every action that took effect. */
  datatype Monitor = Monitor(lastAction: int, oomAtAction: int, seen: set<Kill>, charged: set<Kill>, hist: seq<Sample>,
                             memory: int, size: int, log: seq<Entry>, raises: nat, scaleOuts: nat)

  /** How many of the latest samples a cause rests on. */
  function Window(p: Policy, cause: Cause): int {
    match cause
    case NewOomKills => 0
    case MemoryPressure => p.WithDefaults().memSamples
    case Slowness => p.WithDefaults().slowSamples
  }

  /** sampleOnce: the kill count of a sample is the counter's. */
  function Observed(m: Monitor, turn: Turn): Monitor {
    var seen := m.seen + AllKills(turn.pods);
    m.(seen := seen, hist := m.hist + [turn.measured.(oomKills := |seen|)])
  }

  function Choice(p: Policy, m: Monitor, now: int): Action
    requires p.Valid()
  {
    Decision(p, m.lastAction, m.oomAtAction, now, m.hist, m.memory, m.size)
  }

  /** applyAction on the cluster spec. */
  function Change(m: Monitor, a: Action): Monitor {
    match a
    case NoAction => m
    case RaiseMemory(memory, _) => m.(memory := memory, raises := m.raises + 1)
    case ScaleOut(size, _) => m.(size := size, scaleOuts := m.scaleOuts + 1)
  }

  /** The entry of an action taken on the history of `m`. */
  function EntryOf(p: Policy, m: Monitor, a: Action, turn: Turn): Entry
    requires a != NoAction
  {
    var n := |m.hist|;
    Entry(turn.now, turn.doneAt, a.cause, n - Window(p, a.cause), n, m.seen - m.charged, a.ScaleOut?, turn.applying == Stored)
  }

  /** The scaler remembers an action only when it was answered. */
  function Remember(p: Policy, m: Monitor, a: Action, turn: Turn): Monitor
    requires a != NoAction
  {
    var logged := m.(log := m.log + [EntryOf(p, m, a, turn)]);
    if turn.applying == Stored then logged.(lastAction := turn.doneAt, oomAtAction := |m.seen|, charged := m.seen)
    else logged
  }

  predicate Acts(p: Policy, m: Monitor, turn: Turn)
    requires p.Valid()
  {
    turn.asked && turn.applying != Refused && Choice(p, Observed(m, turn), turn.now) != NoAction
  }

  function Step(p: Policy, m: Monitor, turn: Turn): Monitor
    requires p.Valid()
  {
    var seen := Observed(m, turn);
    if !Acts(p, m, turn) then seen
    else
      var a := Choice(p, seen, turn.now);
      Change(Remember(p, seen, a, turn), a)
  }

  const ATTEMPTS := 5

  /** One attempt: the spec cannot be read, the update is stored and answered, it is not stored, or
      it is stored and the answer is lost. */
  datatype Attempt = ReadFailed | Updated | Rejected | UpdateLost

  /** How the attempts from the k-th on end, if an update is stored already or not. */
  function Ending(attempts: nat -> Attempt, k: nat, stored: bool): Applying
    decreases ATTEMPTS - k
  {
    var lost := if stored then AnswerLost else Refused;
    if k >= ATTEMPTS then lost
    else
      match attempts(k)
      case ReadFailed => lost
      case Updated => Stored
      case Rejected => Ending(attempts, k + 1, stored)
      case UpdateLost => Ending(attempts, k + 1, true)
  }

  /** The attempts up to the k-th went on: none was answered and none could not read the spec. */
  predicate GoOn(attempts: nat -> Attempt, k: nat) {
    forall i :: 0 <= i < k ==> attempts(i) == Rejected || attempts(i) == UpdateLost
  }

  lemma {:induction false} EndingFrom(attempts: nat -> Attempt, k: nat, stored: bool)
    requires k <= 5 && GoOn(attempts, k) && (stored <==> exists i :: 0 <= i < k && attempts(i) == UpdateLost)
    ensures var r := Ending(attempts, k, stored);
            && (r == Stored <==> exists i :: k <= i < 5 && GoOn(attempts, i) && attempts(i) == Updated)
            && (r == AnswerLost ==> exists i :: 0 <= i < 5 && GoOn(attempts, i) && attempts(i) == UpdateLost)
            && (r == Refused ==> forall i :: 0 <= i < 5 && GoOn(attempts, i) ==> attempts(i) == Rejected || attempts(i) == ReadFailed)
    decreases 5 - k
  {
    if k < 5 && (attempts(k) == Rejected || attempts(k) == UpdateLost) {
      EndingFrom(attempts, k + 1, stored || attempts(k) == UpdateLost);
    } else if k < 5 {
      forall i | k < i < 5 ensures !GoOn(attempts, i) { assert attempts(k) != Rejected && attempts(k) != UpdateLost; }
    }
  }

  /** How the attempts end: answered if one that is reached is; with the answer lost if none is and one
      that is reached was stored all the same; refused otherwise. */
  lemma EndingIff(attempts: nat -> Attempt)
    ensures var r := Ending(attempts, 0, false);
            var answered := exists i :: 0 <= i < 5 && GoOn(attempts, i) && attempts(i) == Updated;
            var lost := exists i :: 0 <= i < 5 && GoOn(attempts, i) && attempts(i) == UpdateLost;
            r == if answered then Stored else if lost then AnswerLost else Refused
  {
    EndingFrom(attempts, 0, false);
  }

  /** The cluster spec the monitor changes. */
  class Cluster {
    var memory: int
    var size: int

    constructor (memory: int, size: int)
      ensures this.memory == memory && this.size == size
    {
      this.memory, this.size := memory, size;
    }

    /** applyAction: up to five attempts of reading the spec and updating it. */
    method Apply(a: Action, attempts: nat -> Attempt) returns (ok: bool)
      requires a != NoAction
      modifies this
      ensures ok == (Ending(attempts, 0, false) == Stored)
      ensures memory == if a.RaiseMemory? && Ending(attempts, 0, false) != Refused then a.memory else old(memory)
      ensures size == if a.ScaleOut? && Ending(attempts, 0, false) != Refused then a.size else old(size)
    {
      ghost var stored := false;
      for attempt := 0 to ATTEMPTS
        invariant Ending(attempts, 0, false) == Ending(attempts, attempt, stored)
        invariant memory == if a.RaiseMemory? && stored then a.memory else old(memory)
        invariant size == if a.ScaleOut? && stored then a.size else old(size)
      {
        if attempts(attempt) == ReadFailed {
          return false;
        }
        if attempts(attempt) != Rejected {
          stored := true;
          match a {
            case RaiseMemory(m, _) => memory := m;
            case ScaleOut(s, _) => size := s;
          }
        }
        if attempts(attempt) == Updated {
          return true;
        }
      }
      return false;
    }
  }

  /** The loop body as written, on the counter, the scaler and the cluster. */
  method MonitorTurn(counter: OomCounter, scaler: Scaler, cluster: Cluster, hist: seq<Sample>, turn: Turn,
                     attempts: nat -> Attempt, ghost before: Monitor)
    returns (after: seq<Sample>)
    requires scaler.policy.Valid() && counter.Valid() && before.seen == counter.seen
    requires before.lastAction == scaler.lastAction && before.oomAtAction == scaler.oomAtAction
    requires before.hist == hist && before.memory == cluster.memory && before.size == cluster.size
    requires turn.applying == Ending(attempts, 0, false)
    modifies counter, scaler, cluster
    ensures counter.Valid()
    ensures var m := Step(scaler.policy, before, turn);
            && m.lastAction == scaler.lastAction && m.oomAtAction == scaler.oomAtAction && m.seen == counter.seen
            && m.hist == after && m.memory == cluster.memory && m.size == cluster.size
  {
    counter.Observe(turn.pods);
    var sample := turn.measured.(oomKills := counter.oomKills);
    after := hist + [sample];
    if turn.asked {
      var a := scaler.Decide(turn.now, after, cluster.memory, cluster.size);
      if a != NoAction {
        var ok := cluster.Apply(a, attempts);
        if ok {
          scaler.Applied(turn.doneAt, sample.oomKills);
        }
      }
    }
  }

  // ---------- limits, over any run ----------

  function Runs(p: Policy, m: Monitor, turns: seq<Turn>): Monitor
    requires p.Valid()
  {
    if turns == [] then m
    else Step(p, Runs(p, m, turns[..|turns| - 1]), turns[|turns| - 1])
  }

  function Max(a: int, b: int): int { if a > b then a else b }

  /** The limits kept from a start with `memory` and `size` and nothing changed yet. */
  predicate WithinLimits(p: Policy, m: Monitor, memory: int, size: int) {
    && m.memory >= memory && m.size == size + m.scaleOuts
    && m.memory <= Max(memory, p.maxMemory)
    && m.size <= Max(size, p.maxSize)
    && (m.raises == 0 ==> m.memory == memory)
    && (m.raises > 0 ==> m.memory <= p.maxMemory)
    && (m.memory >= m.raises * STEP || (m.raises > 0 && m.memory == p.maxMemory && m.memory >= (m.raises - 1) * STEP))
  }

  lemma RaiseLimits(p: Policy, memory: int, raises: nat)
    requires NextMemory(memory, p.maxMemory).grew && memory >= raises * STEP
    ensures var next := NextMemory(memory, p.maxMemory).memory;
            && memory < next <= p.maxMemory
            && (next >= (raises + 1) * STEP || next == p.maxMemory)
  {
    var next := NextMemory(memory, p.maxMemory).memory;
    if next != p.maxMemory {
      GrownIsWholeStep(memory);
      NextWholeStep(memory, next, raises);
    }
  }

  lemma NextWholeStep(x: int, y: int, k: nat)
    requires x >= k * STEP && y > x && y % STEP == 0
    ensures y >= (k + 1) * STEP
  {
    var j := y / 0x1000_0000;
    assert y == j * 0x1000_0000;
    assert j > k;
  }

  /** What a decision can ask for. */
  predicate Allowed(p: Policy, memory: int, size: int, a: Action) {
    match a
    case NoAction => true
    case RaiseMemory(next, _) => NextMemory(memory, p.maxMemory) == Raise(next, true)
    case ScaleOut(next, _) => next == size + 1 <= p.maxSize
  }

  lemma DecisionAllowed(p: Policy, lastAction: int, oomAtAction: int, now: int, hist: seq<Sample>, memory: int, size: int)
    requires p.Valid()
    ensures Allowed(p, memory, size, Decision(p, lastAction, oomAtAction, now, hist, memory, size))
  {
  }

  lemma ChangeLimits(p: Policy, m: Monitor, a: Action, memory: int, size: int)
    requires memory >= 0 && WithinLimits(p, m, memory, size) && Allowed(p, m.memory, m.size, a)
    ensures WithinLimits(p, Change(m, a), memory, size)
    ensures Change(m, a).memory >= m.memory && Change(m, a).size >= m.size
  {
    if a.RaiseMemory? {
      assert m.memory >= m.raises * STEP;
      RaiseLimits(p, m.memory, m.raises);
    }
  }

  lemma StepLimits(p: Policy, m: Monitor, turn: Turn, memory: int, size: int)
    requires p.Valid() && memory >= 0 && WithinLimits(p, m, memory, size)
    ensures WithinLimits(p, Step(p, m, turn), memory, size)
    ensures Step(p, m, turn).memory >= m.memory && Step(p, m, turn).size >= m.size
  {
    var seen := Observed(m, turn);
    if Acts(p, m, turn) {
      var a := Choice(p, seen, turn.now);
      DecisionAllowed(p, m.lastAction, m.oomAtAction, turn.now, seen.hist, m.memory, m.size);
      ChangeLimits(p, Remember(p, seen, a, turn), a, memory, size);
    }
  }

  /** Nothing a turn does lowers the memory or the size. */
  lemma StepNeverFalls(p: Policy, m: Monitor, turn: Turn)
    requires p.Valid()
    ensures Step(p, m, turn).memory >= m.memory && Step(p, m, turn).size >= m.size
  {
    var seen := Observed(m, turn);
    DecisionAllowed(p, m.lastAction, m.oomAtAction, turn.now, seen.hist, m.memory, m.size);
  }

  lemma {:induction false} PrefixNeverFalls(p: Policy, m: Monitor, turns: seq<Turn>, i: nat, j: nat)
    requires p.Valid() && i <= j <= |turns|
    ensures Runs(p, m, turns[..i]).memory <= Runs(p, m, turns[..j]).memory
    ensures Runs(p, m, turns[..i]).size <= Runs(p, m, turns[..j]).size
    decreases j
  {
    if i < j {
      PrefixNeverFalls(p, m, turns, i, j - 1);
      RunsPrefix(p, m, turns, j);
      StepNeverFalls(p, Runs(p, m, turns[..j - 1]), turns[j - 1]);
    }
  }

  lemma RunsPrefix(p: Policy, m: Monitor, turns: seq<Turn>, j: nat)
    requires p.Valid() && 0 < j <= |turns|
    ensures Runs(p, m, turns[..j]) == Step(p, Runs(p, m, turns[..j - 1]), turns[j - 1])
  {
    assert turns[..j][..j - 1] == turns[..j - 1];
  }

  /** Over any run: memory and size never fall, memory stays within MaxMemory if it starts there,
      size within the larger of MaxSize and its start, and there are at most MaxMemory / 256Mi + 1
      raises and MaxSize - size scale-outs. */
  lemma {:induction false} RunLimits(p: Policy, start: Monitor, turns: seq<Turn>)
    requires p.Valid() && start.memory >= 0 && start.raises == 0 && start.scaleOuts == 0
    ensures WithinLimits(p, Runs(p, start, turns), start.memory, start.size)
    ensures var m := Runs(p, start, turns);
            && m.raises <= Max(0, p.maxMemory) / STEP + 1
            && m.scaleOuts <= Max(0, p.maxSize - start.size)
    ensures forall i, j :: 0 <= i <= j <= |turns| ==>
              && Runs(p, start, turns[..i]).memory <= Runs(p, start, turns[..j]).memory
              && Runs(p, start, turns[..i]).size <= Runs(p, start, turns[..j]).size
  {
    forall i, j | 0 <= i <= j <= |turns|
      ensures Runs(p, start, turns[..i]).memory <= Runs(p, start, turns[..j]).memory
      ensures Runs(p, start, turns[..i]).size <= Runs(p, start, turns[..j]).size
    {
      PrefixNeverFalls(p, start, turns, i, j);
    }
    if turns != [] {
      var before := turns[..|turns| - 1];
      RunLimits(p, start, before);
      StepLimits(p, Runs(p, start, before), turns[|turns| - 1], start.memory, start.size);
    }
    LimitsCount(p, Runs(p, start, turns), start.memory, start.size);
  }

  /** The limits bound the number of changes. */
  lemma LimitsCount(p: Policy, m: Monitor, memory: int, size: int)
    requires memory >= 0 && WithinLimits(p, m, memory, size)
    ensures m.raises <= Max(0, p.maxMemory) / STEP + 1
    ensures m.scaleOuts <= Max(0, p.maxSize - size)
  {
    RaiseCount(m.raises, Max(0, p.maxMemory));
  }

  lemma RaiseCount(raises: nat, max: int)
    requires max >= 0
    ensures raises > 0 && (raises - 1) * STEP <= max ==> raises <= max / STEP + 1
  {
    if raises > 0 && (raises - 1) * 0x1000_0000 <= max {
      assert raises - 1 <= max / 0x1000_0000;
    }
  }

  // ---------- what each action rests on, over any run ----------

  /** Time moves on from sample to decision to the end of the action to the next sample. */
  predicate InOrder(m: Monitor, turn: Turn) {
    && 0 < turn.measured.at <= turn.now <= turn.doneAt
    && turn.measured.at >= m.lastAction
    && (m.hist != [] ==> m.hist[|m.hist| - 1].at <= turn.measured.at)
    && (m.log != [] ==> m.log[|m.log| - 1].doneAt <= turn.measured.at)
  }

  ghost predicate AllInOrder(p: Policy, m: Monitor, turns: seq<Turn>)
    requires p.Valid()
  {
    forall i :: 0 <= i < |turns| ==> InOrder(Runs(p, m, turns[..i]), turns[i])
  }

  /** Action b came a cooldown after a was done, and rests on none of its samples or kills. */
  predicate Separate(p: Policy, a: Entry, b: Entry) {
    && b.decidedAt - a.doneAt >= p.cooldown
    && a.kills !! b.kills
    && (b.cause != NewOomKills ==> a.to <= b.from)
  }

  /** An entry was decided with all nodes up, and with the cluster ready if it added a node; and it
      rests on kills, or on a window of samples that all show its cause. */
  predicate Justified(p: Policy, hist: seq<Sample>, e: Entry) {
    && e.from <= e.to <= |hist|
    && 0 < e.to && hist[e.to - 1].allNodesUp && (e.added ==> hist[e.to - 1].clusterReady)
    && match e.cause
       case NewOomKills => e.kills != {}
       case MemoryPressure => 0 <= e.from && forall i :: e.from <= i < e.to ==> Pressed(p, hist[i])
       case Slowness => 0 <= e.from && e.added && forall i :: e.from <= i < e.to ==> Sluggish(p, hist[i])
  }

  predicate Sorted(hist: seq<Sample>) {
    forall i, j :: 0 <= i < j < |hist| ==> hist[i].at <= hist[j].at
  }

  /** Everything an answered action rested on is behind what the scaler remembers. */
  predicate Behind(m: Monitor, a: Entry) {
    && 0 < m.lastAction && a.doneAt <= m.lastAction && a.kills <= m.charged && a.to <= |m.hist|
    && forall i :: 0 <= i < a.to ==> m.hist[i].at <= m.lastAction
  }

  /** The counts are those of the kills, every action is justified, and every answered action is
      separate from all that took effect after it. */
  predicate Evidence(p: Policy, m: Monitor) {
    && Sorted(m.hist)
    && m.oomAtAction == |m.charged| && m.charged <= m.seen
    && (forall i :: 0 <= i < |m.log| ==> Justified(p, m.hist, m.log[i]) && m.log[i].kills <= m.seen)
    && (forall i :: 0 <= i < |m.log| && m.log[i].answered ==> Behind(m, m.log[i]))
    && (forall i, j :: 0 <= i < j < |m.log| && m.log[i].answered ==> Separate(p, m.log[i], m.log[j]))
  }

  /** The samples behind a pressure or slowness decision are all newer than the last action. */
  lemma SamplesAreRecent(p: Policy, m: Monitor, now: int)
    requires p.Valid() && Sorted(m.hist)
    requires Choice(p, m, now) != NoAction && Choice(p, m, now).cause != NewOomKills
    ensures var from := |m.hist| - Window(p, Choice(p, m, now).cause);
            0 <= from <= |m.hist| && forall i :: from <= i < |m.hist| ==> m.hist[i].at > m.lastAction
  {
  }

  /** A new sample leaves the evidence as it is. */
  lemma ObservedEvidence(p: Policy, m: Monitor, turn: Turn)
    requires Evidence(p, m) && InOrder(m, turn)
    ensures Evidence(p, Observed(m, turn))
  {
    var seen := Observed(m, turn);
    forall i | 0 <= i < |m.log| ensures Justified(p, seen.hist, m.log[i]) {
      assert Justified(p, m.hist, m.log[i]);
    }
    forall i | 0 <= i < |m.log| && m.log[i].answered ensures Behind(seen, m.log[i]) {
      assert Behind(m, m.log[i]);
    }
  }

  lemma NotAllCharged(charged: set<Kill>, seen: set<Kill>)
    requires charged <= seen
    ensures seen - charged == {} <==> seen == charged
  {
    if seen - charged == {} {
      forall kill | kill in seen ensures kill in charged { assert kill !in seen - charged; }
    }
  }

  /** The samples behind a pressure decision all show pressure. */
  lemma PressureShows(p: Policy, m: Monitor, now: int, i: int)
    requires p.Valid() && Choice(p, m, now) != NoAction && Choice(p, m, now).cause == MemoryPressure
    requires |m.hist| - Window(p, MemoryPressure) <= i < |m.hist|
    ensures 0 <= i && Pressed(p, m.hist[i])
  {
    SamplesInWords(p, m.hist[if i >= 0 then i else 0]);
    var k := RecentFrom(m.hist, m.lastAction);
    var recent := m.hist[k..];
    assert LastN(recent, p.WithDefaults().memSamples, h => p.WithDefaults().UnderPressure(h));
    assert recent[i - k] == m.hist[i];
  }

  /** And those behind a slowness decision slowness. */
  lemma SlownessShows(p: Policy, m: Monitor, now: int, i: int)
    requires p.Valid() && Choice(p, m, now) != NoAction && Choice(p, m, now).cause == Slowness
    requires |m.hist| - Window(p, Slowness) <= i < |m.hist|
    ensures 0 <= i && Sluggish(p, m.hist[i])
  {
    SamplesInWords(p, m.hist[if i >= 0 then i else 0]);
    var k := RecentFrom(m.hist, m.lastAction);
    var recent := m.hist[k..];
    assert LastN(recent, p.WithDefaults().slowSamples, h => p.WithDefaults().Slow(h));
    assert recent[i - k] == m.hist[i];
  }

  /** A decision is justified by what it looked at. */
  lemma ChoiceJustified(p: Policy, m: Monitor, turn: Turn)
    requires p.Valid() && Evidence(p, m) && Choice(p, m, turn.now) != NoAction
    requires m.hist != [] && m.hist[|m.hist| - 1].oomKills == |m.seen|
    ensures Justified(p, m.hist, EntryOf(p, m, Choice(p, m, turn.now), turn))
  {
    var cause := Choice(p, m, turn.now).cause;
    DecidesIff(p, m.lastAction, m.oomAtAction, turn.now, m.hist, m.memory, m.size);
    if cause == NewOomKills {
      NotAllCharged(m.charged, m.seen);
    } else {
      SamplesAreRecent(p, m, turn.now);
      forall i | |m.hist| - Window(p, cause) <= i < |m.hist|
        ensures cause == MemoryPressure ==> Pressed(p, m.hist[i])
        ensures cause == Slowness ==> Sluggish(p, m.hist[i])
      {
        if cause == MemoryPressure {
          PressureShows(p, m, turn.now, i);
        } else {
          SlownessShows(p, m, turn.now, i);
        }
      }
    }
  }

  /** And it is separate from every answered action before it. */
  lemma ChoiceSeparate(p: Policy, m: Monitor, turn: Turn, a: Entry)
    requires p.Valid() && Sorted(m.hist) && Behind(m, a) && Choice(p, m, turn.now) != NoAction
    ensures Separate(p, a, EntryOf(p, m, Choice(p, m, turn.now), turn))
  {
    if Choice(p, m, turn.now).cause != NewOomKills {
      SamplesAreRecent(p, m, turn.now);
    }
  }

  lemma RememberBehind(p: Policy, m: Monitor, act: Action, turn: Turn, a: Entry)
    requires act != NoAction && m.charged <= m.seen && Behind(m, a) && m.lastAction <= turn.doneAt
    ensures Behind(Remember(p, m, act, turn), a)
  {
  }

  lemma NewBehind(p: Policy, m: Monitor, act: Action, turn: Turn)
    requires act != NoAction && Sorted(m.hist) && m.hist != [] && 0 < m.hist[|m.hist| - 1].at <= turn.doneAt && turn.applying == Stored
    ensures Behind(Remember(p, m, act, turn), EntryOf(p, m, act, turn))
  {
  }

  lemma RememberEvidence(p: Policy, m: Monitor, turn: Turn)
    requires p.Valid() && Evidence(p, m) && Choice(p, m, turn.now) != NoAction
    requires m.hist != [] && m.hist[|m.hist| - 1].oomKills == |m.seen|
    requires 0 < m.hist[|m.hist| - 1].at <= turn.doneAt && m.lastAction <= turn.doneAt
    ensures Evidence(p, Remember(p, m, Choice(p, m, turn.now), turn))
  {
    var act := Choice(p, m, turn.now);
    var e, after := EntryOf(p, m, act, turn), Remember(p, m, act, turn);
    ChoiceJustified(p, m, turn);
    forall i | 0 <= i < |after.log| && after.log[i].answered ensures Behind(after, after.log[i]) {
      if i < |m.log| {
        RememberBehind(p, m, act, turn, m.log[i]);
      } else {
        NewBehind(p, m, act, turn);
      }
    }
    forall i, j | 0 <= i < j < |after.log| && after.log[i].answered ensures Separate(p, after.log[i], after.log[j]) {
      if j == |m.log| {
        ChoiceSeparate(p, m, turn, m.log[i]);
      }
    }
  }

  lemma StepEvidence(p: Policy, m: Monitor, turn: Turn)
    requires p.Valid() && Evidence(p, m) && InOrder(m, turn)
    ensures Evidence(p, Step(p, m, turn))
  {
    ObservedEvidence(p, m, turn);
    if Acts(p, m, turn) {
      RememberEvidence(p, Observed(m, turn), turn);
    }
  }

  /** In any run with a monotone clock, whether or not answers are lost, every action rests on new
      kills or on samples that show its cause, and every answered action is at least a cooldown
      before whatever takes effect after it, which rests on none of its samples and kills. */
  lemma {:induction false} ActionsAreSeparate(p: Policy, start: Monitor, turns: seq<Turn>)
    requires p.Valid() && Evidence(p, start) && AllInOrder(p, start, turns)
    ensures Evidence(p, Runs(p, start, turns))
  {
    if turns != [] {
      var n := |turns| - 1;
      var before := turns[..n];
      forall i | 0 <= i < |before| ensures InOrder(Runs(p, start, before[..i]), before[i]) {
        assert before[..i] == turns[..i];
        assert InOrder(Runs(p, start, turns[..i]), turns[i]);
      }
      ActionsAreSeparate(p, start, before);
      StepEvidence(p, Runs(p, start, before), turns[n]);
    }
  }

  /** So a kill charged to an answered action is charged to no action after it: to at most one
      answered action in all. */
  lemma KillChargedOnce(p: Policy, start: Monitor, turns: seq<Turn>, kill: Kill, i: nat, j: nat)
    requires p.Valid() && Evidence(p, start) && AllInOrder(p, start, turns)
    requires var log := Runs(p, start, turns).log;
             i < |log| && j < |log| && log[i].answered && kill in log[i].kills && kill in log[j].kills
    ensures j <= i && kill in Runs(p, start, turns).seen
  {
    ActionsAreSeparate(p, start, turns);
    assert Runs(p, start, turns).log[i].kills <= Runs(p, start, turns).seen;
  }

  /** A turn acts if and only if it is asked and not refused, all nodes are up, no cooldown runs, and
      either there are new kills or the last samples were pressed, and there is memory or a node to
      add, or they were sluggish and there is a node to add. */
  lemma ActsIff(p: Policy, m: Monitor, turn: Turn)
    requires p.Valid()
    ensures var seen := Observed(m, turn);
            var s := SignsOf(p, m.lastAction, m.oomAtAction, turn.now, seen.hist, m.memory, m.size);
            Acts(p, m, turn) <==>
              && turn.asked && turn.applying != Refused && s.calm
              && (((s.killed || s.pressed) && (s.canRaise || s.canAdd)) || (s.sluggish && s.canAdd))
  {
    var seen := Observed(m, turn);
    DecidesIff(p, m.lastAction, m.oomAtAction, turn.now, seen.hist, m.memory, m.size);
  }

  // ---------- exactly the answered actions are protected ----------

  /** Whatever follows, every later action is separate from e. */
  ghost predicate Protected(p: Policy, m: Monitor, e: Entry)
    requires p.Valid()
  {
    forall turns :: AllInOrder(p, m, turns) ==> AllSeparate(p, e, Runs(p, m, turns).log, |m.log|)
  }

  predicate AllSeparate(p: Policy, e: Entry, log: seq<Entry>, from: int) {
    forall j :: 0 <= from <= j < |log| ==> Separate(p, e, log[j])
  }

  /** There is memory or a node left to add. */
  predicate CanGrow(p: Policy, m: Monitor) {
    NextMemory(m.memory, p.maxMemory).grew || m.size < p.maxSize
  }

  lemma {:induction false} LogGrows(p: Policy, m: Monitor, turns: seq<Turn>)
    requires p.Valid()
    ensures m.log <= Runs(p, m, turns).log
  {
    if turns != [] {
      LogGrows(p, m, turns[..|turns| - 1]);
    }
  }

  lemma {:induction false} NoRoomNoAction(p: Policy, m: Monitor, turns: seq<Turn>)
    requires p.Valid() && !CanGrow(p, m)
    ensures var end := Runs(p, m, turns); end.log == m.log && end.memory == m.memory && end.size == m.size
  {
    if turns != [] {
      NoRoomNoAction(p, m, turns[..|turns| - 1]);
    }
  }

  lemma {:induction false} FreshKill(seen: set<Kill>, pod: string) returns (restarts: nat)
    ensures forall r: nat :: r >= restarts ==> (pod, r) !in seen
    decreases |seen|
  {
    restarts := 0;
    if kill :| kill in seen {
      var rest := FreshKill(seen - {kill}, pod);
      restarts := Max(rest, kill.1 + 1);
      forall r: nat | r >= restarts ensures (pod, r) !in seen {
        assert (pod, r) !in seen - {kill};
      }
    }
  }

  /** A turn at time `at` that shows one more kill. */
  function KillTurn(at: int, pod: string, restarts: nat): Turn {
    Turn([PodStatus(pod, [Container(RIAK, restarts, true)])],
         Sample(at, true, true, 0, 0.0, 0.0, 0.0, 0.0), true, at, at, Stored)
  }

  lemma KillTurnShows(at: int, pod: string, restarts: nat)
    ensures AllKills(KillTurn(at, pod, restarts).pods) == {(pod, restarts)}
  {
    var pods := KillTurn(at, pod, restarts).pods;
    var containers := pods[0].containers;
    assert KillsIn(pod, containers) == {(pod, restarts)} by {
      assert containers[..|containers| - 1] == [];
    }
    assert pods[..|pods| - 1] == [];
  }

  /** With room to grow and no cooldown running, a new kill makes the scaler act, and all kills
      since the last answered action are charged to what it does. */
  lemma KillTurnActs(p: Policy, m: Monitor, at: int, pod: string, restarts: nat)
    requires p.Valid() && CanGrow(p, m) && m.oomAtAction == |m.charged| && m.charged <= m.seen
    requires (pod, restarts) !in m.seen
    requires m.lastAction == 0 || at - m.lastAction >= p.cooldown
    ensures var log := Step(p, m, KillTurn(at, pod, restarts)).log;
            && |log| == |m.log| + 1 && log[|m.log|].decidedAt == at
            && log[|m.log|].kills == m.seen + {(pod, restarts)} - m.charged
  {
    KillTurnShows(at, pod, restarts);
    SubsetCount(m.charged, m.seen);
    assert |m.seen + {(pod, restarts)}| == |m.seen| + 1;
    assert Choice(p, Observed(m, KillTurn(at, pod, restarts)), at) != NoAction;
  }

  lemma OneTurn(p: Policy, m: Monitor, turn: Turn)
    requires p.Valid() && InOrder(m, turn)
    ensures Runs(p, m, [turn]) == Step(p, m, turn) && AllInOrder(p, m, [turn])
  {
    assert [turn][..0] == [];
    assert Runs(p, m, []) == m;
  }

  /** The last sample can count again, for another action, together with later ones. */
  predicate Repeatable(p: Policy, m: Monitor) {
    m.hist != [] &&
    var last := m.hist[|m.hist| - 1];
    || (p.memSamples != 1 && Pressed(p, last) && CanGrow(p, m))
    || (p.slowSamples != 1 && Sluggish(p, last) && m.size < p.maxSize)
  }

  /** The action of this turn is protected if and only if its answer came back, or nothing is left
      to add, or there is no cooldown to miss, it saw no kills, and its last sample cannot count
      again. */
  lemma ProtectedIffAnswered(p: Policy, m: Monitor, turn: Turn)
    requires p.Valid() && Evidence(p, m) && InOrder(m, turn) && Acts(p, m, turn)
    ensures var after := Step(p, m, turn);
            && |after.log| == |m.log| + 1
            && (Protected(p, after, after.log[|m.log|]) <==>
                  || turn.applying == Stored
                  || !CanGrow(p, after)
                  || (p.cooldown <= 0 && after.seen == m.charged && !Repeatable(p, after)))
  {
    var after := Step(p, m, turn);
    if turn.applying == Stored || !CanGrow(p, after) {
      AnsweredIsProtected(p, m, turn);
    } else if p.cooldown > 0 || after.seen != m.charged {
      LostIsUnprotected(p, m, turn);
    } else {
      KillFreeLost(p, m, turn);
    }
  }

  lemma AnsweredIsProtected(p: Policy, m: Monitor, turn: Turn)
    requires p.Valid() && Evidence(p, m) && InOrder(m, turn) && Acts(p, m, turn)
    requires turn.applying == Stored || !CanGrow(p, Step(p, m, turn))
    ensures var after := Step(p, m, turn); |after.log| == |m.log| + 1 && Protected(p, after, after.log[|m.log|])
  {
    var after := Step(p, m, turn);
    var e := after.log[|m.log|];
    StepEvidence(p, m, turn);
    forall turns | AllInOrder(p, after, turns) ensures AllSeparate(p, e, Runs(p, after, turns).log, |after.log|) {
      if turn.applying == Stored {
        ActionsAreSeparate(p, after, turns);
        LogGrows(p, after, turns);
      } else {
        NoRoomNoAction(p, after, turns);
      }
    }
  }

  /** What an action that is not remembered rested on can be used again at once. */
  lemma ForgottenIsRepeated(p: Policy, m: Monitor, e: Entry)
    requires p.Valid() && Evidence(p, m) && CanGrow(p, m)
    requires 0 < e.doneAt && m.lastAction <= e.doneAt && (m.hist != [] ==> m.hist[|m.hist| - 1].at <= e.doneAt)
    requires m.log != [] ==> m.log[|m.log| - 1].doneAt <= e.doneAt
    requires m.lastAction == 0 || e.doneAt - m.lastAction >= p.cooldown
    requires e.kills <= m.seen - m.charged && (p.cooldown > 0 || e.kills != {})
    ensures !Protected(p, m, e)
  {
    var restarts := FreshKill(m.seen, "riak-0");
    var again := KillTurn(e.doneAt, "riak-0", restarts);
    KillTurnActs(p, m, e.doneAt, "riak-0", restarts);
    OneTurn(p, m, again);
    var log := Runs(p, m, [again]).log;
    RepeatIsNotSeparate(p, e, log[|m.log|]);
    assert !AllSeparate(p, e, log, |m.log|);
  }

  lemma RepeatIsNotSeparate(p: Policy, e: Entry, next: Entry)
    requires next.decidedAt == e.doneAt && e.kills <= next.kills && (p.cooldown > 0 || e.kills != {})
    ensures !Separate(p, e, next)
  {
    if kill :| kill in e.kills {
      assert kill in next.kills;
    }
  }

  lemma LostIsUnprotected(p: Policy, m: Monitor, turn: Turn)
    requires p.Valid() && Evidence(p, m) && InOrder(m, turn) && Acts(p, m, turn)
    requires turn.applying == AnswerLost && CanGrow(p, Step(p, m, turn))
    requires p.cooldown > 0 || m.seen + AllKills(turn.pods) != m.charged
    ensures var after := Step(p, m, turn); |after.log| == |m.log| + 1 && !Protected(p, after, after.log[|m.log|])
  {
    StepEvidence(p, m, turn);
    var after := Step(p, m, turn);
    assert m.lastAction == 0 || turn.now - m.lastAction >= p.cooldown;
    assert after.seen == m.seen + AllKills(turn.pods) && after.charged == m.charged;
    NotAllCharged(m.charged, after.seen);
    ForgottenIsRepeated(p, after, after.log[|m.log|]);
  }

  // ---------- a lost action without cooldown and kills ----------

  /** What is known of an action after e, whose turn left the state m. */
  predicate LaterEntry(p: Policy, m: Monitor, e: Entry, b: Entry) {
    && e.doneAt <= b.decidedAt <= b.doneAt && b.to > |m.hist| && b.to - b.from == Window(p, b.cause)
    && (b.cause == Slowness ==> m.size < p.maxSize)
  }

  predicate Later(p: Policy, m: Monitor, e: Entry, now: Monitor) {
    && m.hist <= now.hist && m.log <= now.log && now.size >= m.size
    && now.log != [] && now.log[|now.log| - 1].doneAt >= e.doneAt
    && forall j :: |m.log| <= j < |now.log| ==> LaterEntry(p, m, e, now.log[j])
  }

  /** A decision of the scaler, seen from e. */
  lemma ChoiceLater(p: Policy, m: Monitor, e: Entry, seen: Monitor, turn: Turn)
    requires p.Valid() && Choice(p, seen, turn.now) != NoAction && |seen.hist| > |m.hist| && seen.size >= m.size
    requires e.doneAt <= turn.now <= turn.doneAt
    ensures LaterEntry(p, m, e, EntryOf(p, seen, Choice(p, seen, turn.now), turn))
  {
  }

  lemma StepLogs(p: Policy, m: Monitor, turn: Turn)
    requires p.Valid()
    ensures var seen, after := Observed(m, turn), Step(p, m, turn);
            && after.hist == seen.hist
            && after.log == (if Acts(p, m, turn) then m.log + [EntryOf(p, seen, Choice(p, seen, turn.now), turn)] else m.log)
  {
  }

  lemma StepLater(p: Policy, m: Monitor, e: Entry, now: Monitor, turn: Turn)
    requires p.Valid() && Later(p, m, e, now) && InOrder(now, turn)
    ensures Later(p, m, e, Step(p, now, turn))
  {
    StepNeverFalls(p, now, turn);
    StepLogs(p, now, turn);
    if Acts(p, now, turn) {
      ChoiceLater(p, m, e, Observed(now, turn), turn);
    }
  }

  lemma {:induction false} RunLater(p: Policy, m: Monitor, e: Entry, turns: seq<Turn>)
    requires p.Valid() && m.log != [] && m.log[|m.log| - 1] == e && AllInOrder(p, m, turns)
    ensures Later(p, m, e, Runs(p, m, turns))
  {
    if turns != [] {
      var n := |turns| - 1;
      AllInOrderPrefix(p, m, turns, n);
      RunLater(p, m, e, turns[..n]);
      StepLater(p, m, e, Runs(p, m, turns[..n]), turns[n]);
    }
  }

  lemma AllInOrderPrefix(p: Policy, m: Monitor, turns: seq<Turn>, n: nat)
    requires p.Valid() && AllInOrder(p, m, turns) && n <= |turns|
    ensures AllInOrder(p, m, turns[..n])
    ensures n < |turns| ==> InOrder(Runs(p, m, turns[..n]), turns[n])
  {
    forall i | 0 <= i < n ensures InOrder(Runs(p, m, turns[..n][..i]), turns[..n][i]) {
      assert turns[..n][..i] == turns[..i];
    }
  }

  lemma AllInOrderSnoc(p: Policy, m: Monitor, turns: seq<Turn>, turn: Turn)
    requires p.Valid() && AllInOrder(p, m, turns) && InOrder(Runs(p, m, turns), turn)
    ensures AllInOrder(p, m, turns + [turn]) && Runs(p, m, turns + [turn]) == Step(p, Runs(p, m, turns), turn)
  {
    var all := turns + [turn];
    assert all[..|turns|] == turns;
    forall i | 0 <= i < |all| ensures InOrder(Runs(p, m, all[..i]), all[i]) {
      if i < |turns| {
        assert all[..i] == turns[..i];
      }
    }
  }

  /** A later action whose window reaches back to the last sample shows it was repeatable. */
  lemma ReachesBack(p: Policy, m: Monitor, e: Entry, end: Monitor, b: Entry)
    requires LaterEntry(p, m, e, b) && m.hist != [] && m.hist <= end.hist && Justified(p, end.hist, b)
    requires b.cause != NewOomKills && b.from < |m.hist| && CanGrow(p, m)
    ensures Repeatable(p, m)
  {
    var i := |m.hist| - 1;
    assert b.from <= i < b.to && end.hist[i] == m.hist[i];
  }

  lemma NotRepeatableIsProtected(p: Policy, m: Monitor, e: Entry)
    requires p.Valid() && Evidence(p, m) && m.log != [] && m.log[|m.log| - 1] == e && m.hist != []
    requires e.to == |m.hist| && e.kills == {} && p.cooldown <= 0 && CanGrow(p, m) && !Repeatable(p, m)
    ensures Protected(p, m, e)
  {
    forall turns | AllInOrder(p, m, turns) ensures AllSeparate(p, e, Runs(p, m, turns).log, |m.log|) {
      var end := Runs(p, m, turns);
      RunLater(p, m, e, turns);
      ActionsAreSeparate(p, m, turns);
      forall j | |m.log| <= j < |end.log| ensures Separate(p, e, end.log[j]) {
        var b := end.log[j];
        assert LaterEntry(p, m, e, b) && Justified(p, end.hist, b);
        if b.cause != NewOomKills && b.from < |m.hist| {
          ReachesBack(p, m, e, end, b);
        }
      }
    }
  }

  /** A turn without kills that repeats a sample, with the cluster up. */
  function Quiet(h: Sample, at: int, asked: bool): Turn {
    Turn([], h.(at := at, clusterReady := true, allNodesUp := true), asked, at, at, Stored)
  }

  function Copies(k: nat, h: Sample): seq<Sample> { seq(k, i => h) }

  /** Time can go on at `at`. */
  predicate CanGoOn(m: Monitor, at: int) {
    && 0 < at && m.lastAction <= at
    && (m.hist != [] ==> m.hist[|m.hist| - 1].at <= at) && (m.log != [] ==> m.log[|m.log| - 1].doneAt <= at)
  }

  /** The sample a quiet turn takes. */
  function QuietSample(m: Monitor, h: Sample, at: int): Sample {
    h.(at := at, clusterReady := true, allNodesUp := true, oomKills := |m.seen|)
  }

  lemma QuietObserved(m: Monitor, h: Sample, at: int, asked: bool)
    ensures Observed(m, Quiet(h, at, asked)) == m.(hist := m.hist + [QuietSample(m, h, at)])
  {
    assert AllKills(Quiet(h, at, asked).pods) == {};
    assert m.seen + {} == m.seen;
  }

  lemma QuietStep(p: Policy, m: Monitor, h: Sample, at: int)
    requires p.Valid() && CanGoOn(m, at)
    ensures InOrder(m, Quiet(h, at, false))
    ensures Step(p, m, Quiet(h, at, false)) == m.(hist := m.hist + [QuietSample(m, h, at)])
  {
    QuietObserved(m, h, at, false);
  }

  lemma CopiesSnoc(k: nat, h: Sample)
    ensures Copies(k, h) + [h] == Copies(k + 1, h)
  {
  }

  lemma CopiesGoOn(m: Monitor, h: Sample, at: int, k: nat)
    requires CanGoOn(m, at) && h.at == at
    ensures CanGoOn(m.(hist := m.hist + Copies(k, h)), at)
  {
    var hist := m.hist + Copies(k, h);
    if k > 0 {
      assert hist[|hist| - 1] == h;
    } else {
      assert hist == m.hist;
    }
  }

  lemma {:induction false} QuietRuns(p: Policy, m: Monitor, h: Sample, at: int, k: nat) returns (turns: seq<Turn>)
    requires p.Valid() && CanGoOn(m, at)
    ensures AllInOrder(p, m, turns) && Runs(p, m, turns) == m.(hist := m.hist + Copies(k, QuietSample(m, h, at)))
  {
    var sample := QuietSample(m, h, at);
    turns := [];
    if k == 0 {
      assert m.hist + Copies(0, sample) == m.hist;
    } else {
      var before := QuietRuns(p, m, h, at, k - 1);
      CopiesGoOn(m, sample, at, k - 1);
      QuietStep(p, Runs(p, m, before), h, at);
      AllInOrderSnoc(p, m, before, Quiet(h, at, false));
      turns := before + [Quiet(h, at, false)];
      CopiesSnoc(k - 1, sample);
      assert m.hist + Copies(k - 1, sample) + [sample] == m.hist + (Copies(k - 1, sample) + [sample]);
    }
  }

  lemma WindowFull(hist: seq<Sample>, last: int, n: nat, pred: Sample -> bool)
    requires 0 < n <= |hist| && forall i :: |hist| - n <= i < |hist| ==> hist[i].at > last && pred(hist[i])
    ensures LastN(hist[RecentFrom(hist, last)..], n, pred)
  {
    var k := RecentFrom(hist, last);
    assert k <= |hist| - n;
    assert forall i :: |hist| - n <= i < |hist| ==> hist[k..][i - k] == hist[i];
  }

  /** No kill is new, the cluster is up, and no cooldown runs. */
  predicate Idles(p: Policy, m: Monitor, now: int) {
    && m.hist != [] && m.hist[|m.hist| - 1].allNodesUp && m.hist[|m.hist| - 1].clusterReady
    && m.hist[|m.hist| - 1].oomKills <= m.oomAtAction && (m.lastAction == 0 || now - m.lastAction >= p.cooldown)
  }

  lemma PressureActs(p: Policy, m: Monitor, now: int)
    requires p.Valid() && Idles(p, m, now) && CanGrow(p, m) && p.WithDefaults().memSamples <= |m.hist|
    requires forall i :: |m.hist| - p.WithDefaults().memSamples <= i < |m.hist| ==>
               m.hist[i].at > m.lastAction && p.WithDefaults().UnderPressure(m.hist[i])
    ensures Choice(p, m, now) != NoAction && Choice(p, m, now).cause == MemoryPressure
  {
    WindowFull(m.hist, m.lastAction, p.WithDefaults().memSamples, h => p.WithDefaults().UnderPressure(h));
  }

  lemma SlownessActs(p: Policy, m: Monitor, now: int)
    requires p.Valid() && Idles(p, m, now) && m.size < p.maxSize && p.WithDefaults().slowSamples <= |m.hist|
    requires !p.WithDefaults().UnderPressure(m.hist[|m.hist| - 1])
    requires forall i :: |m.hist| - p.WithDefaults().slowSamples <= i < |m.hist| ==>
               m.hist[i].at > m.lastAction && p.WithDefaults().Slow(m.hist[i])
    ensures Choice(p, m, now) != NoAction && Choice(p, m, now).cause == Slowness
  {
    var recent := m.hist[RecentFrom(m.hist, m.lastAction)..];
    WindowFull(m.hist, m.lastAction, p.WithDefaults().slowSamples, h => p.WithDefaults().Slow(h));
    assert recent[|recent| - 1] == m.hist[|m.hist| - 1];
  }

  /** The history after w - 1 more samples like h: its last w start with the last one before. */
  function Stretched(m: Monitor, h: Sample, at: int, w: nat): Monitor
    requires w >= 1
  {
    m.(hist := m.hist + Copies(w - 1, QuietSample(m, h, at)))
  }

  lemma ReachedBackIsNotSeparate(p: Policy, e: Entry, b: Entry)
    requires b.cause != NewOomKills && b.from < e.to
    ensures !Separate(p, e, b)
  {
  }

  /** The last of w - 1 quiet turns, on which the scaler is asked and acts. */
  lemma LastQuietTurn(p: Policy, m: Monitor, h: Sample, at: int, cause: Cause) returns (b: Entry)
    requires p.Valid() && m.hist != [] && CanGoOn(m, at) && cause != NewOomKills && Window(p, cause) >= 2
    requires var s := Stretched(m, h, at, Window(p, cause));
             Choice(p, s, at) != NoAction && Choice(p, s, at).cause == cause
    ensures var before := m.(hist := m.hist + Copies(Window(p, cause) - 2, QuietSample(m, h, at)));
            InOrder(before, Quiet(h, at, true)) && Step(p, before, Quiet(h, at, true)).log == m.log + [b]
    ensures b.cause == cause && b.from == |m.hist| - 1
  {
    var w, sample, turn := Window(p, cause), QuietSample(m, h, at), Quiet(h, at, true);
    var before, s := m.(hist := m.hist + Copies(w - 2, sample)), Stretched(m, h, at, w);
    CopiesGoOn(m, sample, at, w - 2);
    QuietObserved(before, h, at, true);
    CopiesSnoc(w - 2, sample);
    assert before.hist + [sample] == m.hist + (Copies(w - 2, sample) + [sample]);
    assert Observed(before, turn) == s;
    StepLogs(p, before, turn);
    b := EntryOf(p, s, Choice(p, s, at), turn);
  }

  /** If the samples make the scaler act on a window that holds the last sample, e is not protected. */
  lemma StretchedBreaks(p: Policy, m: Monitor, e: Entry, h: Sample, cause: Cause)
    requires p.Valid() && m.hist != [] && CanGoOn(m, e.doneAt) && e.to == |m.hist|
    requires cause != NewOomKills && Window(p, cause) >= 2
    requires var s := Stretched(m, h, e.doneAt, Window(p, cause));
             Choice(p, s, e.doneAt) != NoAction && Choice(p, s, e.doneAt).cause == cause
    ensures !Protected(p, m, e)
  {
    var at := e.doneAt;
    var quiet := QuietRuns(p, m, h, at, Window(p, cause) - 2);
    var b := LastQuietTurn(p, m, h, at, cause);
    AllInOrderSnoc(p, m, quiet, Quiet(h, at, true));
    var log := Runs(p, m, quiet + [Quiet(h, at, true)]).log;
    assert log == m.log + [b];
    ReachedBackIsNotSeparate(p, e, log[|m.log|]);
    assert !AllSeparate(p, e, log, |m.log|);
  }

  lemma StretchedShows(m: Monitor, h: Sample, at: int, w: nat, i: int)
    requires m.hist != [] && w >= 1 && |m.hist| - 1 <= i < |m.hist| - 1 + w
    ensures var s := Stretched(m, h, at, w);
            && |s.hist| == |m.hist| - 1 + w
            && s.hist[i] == (if i == |m.hist| - 1 then m.hist[i] else QuietSample(m, h, at))
  {
  }

  /** What a kill-free lost action leaves behind. */
  predicate KillFree(p: Policy, m: Monitor, e: Entry) {
    && m.hist != [] && m.log != [] && m.log[|m.log| - 1] == e && e.to == |m.hist| && e.kills == {}
    && CanGoOn(m, e.doneAt) && m.hist[|m.hist| - 1].at > m.lastAction && |m.seen| <= m.oomAtAction && p.cooldown <= 0
  }

  lemma PressureRepeats(p: Policy, m: Monitor, e: Entry)
    requires p.Valid() && KillFree(p, m, e) && CanGrow(p, m)
    requires p.WithDefaults().memSamples >= 2 && p.WithDefaults().UnderPressure(m.hist[|m.hist| - 1])
    ensures !Protected(p, m, e)
  {
    var h, w := m.hist[|m.hist| - 1], p.WithDefaults().memSamples;
    var s := Stretched(m, h, e.doneAt, w);
    forall i | |s.hist| - w <= i < |s.hist|
      ensures s.hist[i].at > s.lastAction && p.WithDefaults().UnderPressure(s.hist[i])
    {
      StretchedShows(m, h, e.doneAt, w, i);
    }
    StretchedShows(m, h, e.doneAt, w, |s.hist| - 1);
    PressureActs(p, s, e.doneAt);
    StretchedBreaks(p, m, e, h, MemoryPressure);
  }

  lemma SlownessRepeats(p: Policy, m: Monitor, e: Entry)
    requires p.Valid() && KillFree(p, m, e) && m.size < p.maxSize
    requires p.WithDefaults().slowSamples >= 2 && p.WithDefaults().Slow(m.hist[|m.hist| - 1])
    ensures !Protected(p, m, e)
  {
    var w := p.WithDefaults().slowSamples;
    var h := m.hist[|m.hist| - 1].(memPct := p.WithDefaults().memPressure * 100.0 - 1.0);
    var s := Stretched(m, h, e.doneAt, w);
    forall i | |s.hist| - w <= i < |s.hist|
      ensures s.hist[i].at > s.lastAction && p.WithDefaults().Slow(s.hist[i])
    {
      StretchedShows(m, h, e.doneAt, w, i);
    }
    StretchedShows(m, h, e.doneAt, w, |s.hist| - 1);
    SlownessActs(p, s, e.doneAt);
    StretchedBreaks(p, m, e, h, Slowness);
  }

  lemma KillFreeIff(p: Policy, m: Monitor, e: Entry)
    requires p.Valid() && Evidence(p, m) && KillFree(p, m, e) && CanGrow(p, m)
    ensures Protected(p, m, e) <==> !Repeatable(p, m)
  {
    SamplesInWords(p, m.hist[|m.hist| - 1]);
    if !Repeatable(p, m) {
      NotRepeatableIsProtected(p, m, e);
    } else if p.WithDefaults().memSamples >= 2 && p.WithDefaults().UnderPressure(m.hist[|m.hist| - 1]) {
      PressureRepeats(p, m, e);
    } else {
      SlownessRepeats(p, m, e);
    }
  }

  /** A decision that saw no new kill rests on the last sample, which is newer than the last action. */
  lemma KillFreeIsRecent(p: Policy, m: Monitor, turn: Turn)
    requires p.Valid() && Evidence(p, m) && m.hist != [] && m.hist[|m.hist| - 1].oomKills == |m.seen|
    requires m.seen == m.charged && Choice(p, m, turn.now) != NoAction
    ensures m.hist[|m.hist| - 1].at > m.lastAction
  {
    assert Choice(p, m, turn.now).cause != NewOomKills;
    SamplesAreRecent(p, m, turn.now);
  }

  lemma KillFreeLost(p: Policy, m: Monitor, turn: Turn)
    requires p.Valid() && Evidence(p, m) && InOrder(m, turn) && Acts(p, m, turn)
    requires turn.applying == AnswerLost && CanGrow(p, Step(p, m, turn))
    requires p.cooldown <= 0 && Step(p, m, turn).seen == m.charged
    ensures var after := Step(p, m, turn);
            && |after.log| == |m.log| + 1
            && (Protected(p, after, after.log[|m.log|]) <==> !Repeatable(p, after))
  {
    StepEvidence(p, m, turn);
    ObservedEvidence(p, m, turn);
    StepLogs(p, m, turn);
    KillFreeIsRecent(p, Observed(m, turn), turn);
    var after := Step(p, m, turn);
    assert after.seen - m.charged == {};
    KillFreeIff(p, after, after.log[|m.log|]);
  }

  /** A raise on a kill whose answer is lost. */
  lemma LostRaise(p: Policy, m: Monitor, at: int, pod: string, kill: nat, next: int)
    requires p.Valid() && m.lastAction == 0 && m.oomAtAction == 0 && m.charged == {} && m.seen <= {(pod, kill)}
    requires NextMemory(m.memory, p.maxMemory) == Raise(next, true)
    ensures var after := Step(p, m, KillTurn(at, pod, kill).(applying := AnswerLost));
            && after.lastAction == 0 && after.oomAtAction == 0 && after.charged == {} && after.seen == {(pod, kill)}
            && after.memory == next && after.raises == m.raises + 1
            && |after.hist| == |m.hist| + 1 && after.hist[|m.hist|].at == at
            && after.log == m.log + [Entry(at, at, NewOomKills, |after.hist|, |after.hist|, {(pod, kill)}, false, false)]
  {
    var turn := KillTurn(at, pod, kill).(applying := AnswerLost);
    KillTurnShows(at, pod, kill);
    var seen := Observed(m, turn);
    assert seen.seen == {(pod, kill)};
    assert Choice(p, seen, at) == RaiseMemory(next, NewOomKills);
    assert seen.seen - seen.charged == seen.seen;
  }

  /** For instance: one kill, an answer lost, and one tick later the same kill raises the memory
      again, whatever the cooldown. */
  lemma LostAnswerActsTwice(p: Policy, pod: string, kill: nat) returns (turns: seq<Turn>)
    requires p.Valid() && p.maxMemory == 8 * STEP
    ensures var start := Monitor(0, 0, {}, {}, [], 2 * STEP, 3, [], 0, 0);
            var end := Runs(p, start, turns);
            && AllInOrder(p, start, turns) && |turns| == 2
            && end.raises == 2 && |end.log| == 2
            && end.log[1].decidedAt - end.log[0].doneAt == 1
            && end.log[0].kills == end.log[1].kills == {(pod, kill)}
  {
    var start := Monitor(0, 0, {}, {}, [], 2 * STEP, 3, [], 0, 0);
    var one := KillTurn(1, pod, kill).(applying := AnswerLost);
    var two := KillTurn(2, pod, kill).(applying := AnswerLost);
    turns := [one, two];
    assert NextMemory(2 * STEP, 8 * STEP) == Raise(3 * STEP, true);
    assert NextMemory(3 * STEP, 8 * STEP) == Raise(5 * STEP, true);
    LostRaise(p, start, 1, pod, kill, 3 * STEP);
    var m := Step(p, start, one);
    LostRaise(p, m, 2, pod, kill, 5 * STEP);
    OneTurn(p, start, one);
    AllInOrderSnoc(p, start, [one], two);
    assert turns == [one] + [two];
  }
}
