/** One thread of the stress client: its puts, retries and reads against a store, and the counters
    that report damage (examples/stressapp/riak_stress.py, worker, record_read, BucketState, Stats). */
module StressWorker {
  import opened Text
  import opened Wire
  import opened RiakMessages
  import opened Values

  const LETTER_B: Byte := 98

  // ---------- what a thread writes where ----------

  datatype Config = Config(digest: Bytes -> Bytes, prefix: Bytes, tid: nat,
                           buckets: seq<Bytes>, btypes: seq<Bytes>, valueSize: nat,
                           pr: Option<nat>, pw: Option<nat>)
  {
    predicate Valid() { |btypes| == |buckets| }

    /** key_bytes: the bucket index is in the key when there is more than one bucket. */
    function KeyBytes(bi: nat, n: nat): Bytes {
      if |buckets| > 1 then
        prefix + ([LETTER_T] + (Natural(tid) + [MINUS] + ([LETTER_B] + (Natural(bi) + [MINUS] + Natural(n)))))
      else
        prefix + ([LETTER_T] + (Natural(tid) + [MINUS] + Natural(n)))
    }

    function Place(bi: nat, n: nat): (Bytes, Bytes)
      requires bi < |buckets|
    {
      (buckets[bi], KeyBytes(bi, n))
    }

    /** The request that puts a value under a key. */
    function PutRequest(bi: nat, n: nat, value: Bytes, vclock: Option<Bytes>): Bytes
      requires Valid() && bi < |buckets|
    {
      PutReq(btypes[bi], buckets[bi], KeyBytes(bi, n), value, vclock, pw)
    }

    function GetRequest(bi: nat, n: nat): Bytes
      requires Valid() && bi < |buckets|
    {
      GetReq(btypes[bi], buckets[bi], KeyBytes(bi, n), pr)
    }

    /** value_id: the bucket is folded into the thread part of the value. */
    function ValueKey(bi: nat, n: nat): Key { Key(prefix, tid * 1000 + bi, n, valueSize) }

    function Value(bi: nat, n: nat, version: int): Bytes { ValueKey(bi, n).Value(digest, version) }
  }

  /** A key reads "<prefix>t<thread>-<key>" in ASCII, with "b<bucket>-" before the key number when there
      is more than one bucket. */
  lemma KeyText(c: Config, bi: nat, n: nat)
    ensures var key := if |c.buckets| > 1 then [98] + (Natural(bi) + [45] + Natural(n)) else Natural(n);
            c.KeyBytes(bi, n) == c.prefix + ([116] + (Natural(c.tid) + [45] + key))
  {
  }

  /** A thread's keys are all different, and no two threads share one. */
  lemma PlacesDiffer(c: Config, d: Config, bi: nat, n: nat, bj: nat, m: nat)
    requires c.buckets == d.buckets && c.prefix == d.prefix && bi < |c.buckets| && bj < |c.buckets|
    requires c.Place(bi, n) == d.Place(bj, m)
    ensures c.tid == d.tid && bi == bj && n == m
  {
    var deep := |c.buckets| > 1;
    var b1, b2 := Natural(bi) + [MINUS] + Natural(n), Natural(bj) + [MINUS] + Natural(m);
    var s1 := if deep then [LETTER_B] + b1 else Natural(n);
    var s2 := if deep then [LETTER_B] + b2 else Natural(m);
    var t1, t2 := Natural(c.tid) + [MINUS] + s1, Natural(d.tid) + [MINUS] + s2;
    SameRest(c.prefix, [LETTER_T] + t1, [LETTER_T] + t2);
    SameRest([LETTER_T], t1, t2);
    CutFirst(Natural(c.tid), Natural(d.tid), MINUS, s1, s2);
    IntegersDiffer(c.tid, d.tid);
    if deep {
      SameRest([LETTER_B], b1, b2);
      CutFirst(Natural(bi), Natural(bj), MINUS, Natural(n), Natural(m));
      IntegersDiffer(bi, bj);
    }
    IntegersDiffer(n, m);
  }

  // ---------- what a thread believes ----------

  /** The latest version and clock written per key, and the versions of unknown outcome. */
  datatype BucketState = BucketState(versions: map<nat, int>, vclocks: map<nat, Option<Bytes>>,
                                     uncertain: map<nat, int>, nextKey: nat)
  {
    function Version(n: nat): int { if n in versions then versions[n] else 0 }

    function Clock(n: nat): Option<Bytes> { if n in vclocks then vclocks[n] else None }
  }

  datatype Stats = Stats(puts: nat, gets: nat, errors: nat, lost: nat, corrupt: nat, stale: nat, ahead: nat,
                         landed: nat, siblings: nat, verified: nat, finalLost: nat, finalCorrupt: nat)
  {
    /** Nothing the client would report as damage. */
    predicate Clean() {
      lost == 0 && corrupt == 0 && stale == 0 && ahead == 0 && finalLost == 0 && finalCorrupt == 0
    }
  }

  /** The stored version of a key is the one last acknowledged or the one of unknown outcome, and
      the latter is always the next after the former. */
  predicate Holds(c: Config, st: BucketState, store: Store, bi: nat, n: nat)
    requires bi < |c.buckets|
  {
    var place := c.Place(bi, n);
    && (n in st.uncertain ==> st.uncertain[n] == st.Version(n) + 1)
    && (n in st.versions ==> place in store && n < st.nextKey)
    && (place in store ==>
          || (n in st.versions && store[place] == c.Value(bi, n, st.versions[n]))
          || (n in st.uncertain && store[place] == c.Value(bi, n, st.uncertain[n])))
  }

  /** The version of its value the store holds for a key. */
  function StoredVersion(c: Config, st: BucketState, store: Store, bi: nat, n: nat): int
    requires bi < |c.buckets| && Holds(c, st, store, bi, n) && n in st.versions
  {
    if store[c.Place(bi, n)] == c.Value(bi, n, st.versions[n]) then st.versions[n] else st.uncertain[n]
  }

  /** A read that returns one version of a key is judged by that version. */
  lemma SingleVerdict(c: Config, bi: nat, n: nat, version: int, expected: int, uncertain: Option<int>)
    ensures VerdictOf(c.digest, [c.Value(bi, n, version)], expected, uncertain, c.ValueKey(bi, n)) ==
            Judged([version], expected, uncertain)
  {
    VerdictFollows(c.digest, [c.Value(bi, n, version)], [version], expected, uncertain, c.ValueKey(bi, n));
  }

  /** Reading a key that holds finds the expected version, or the uncertain one. */
  lemma ReadIsExplained(c: Config, st: BucketState, store: Store, bi: nat, n: nat)
    requires bi < |c.buckets| && Holds(c, st, store, bi, n) && n in st.versions
    ensures var verdict := VerdictOf(c.digest, [store[c.Place(bi, n)]], st.versions[n], Uncertain(st, n), c.ValueKey(bi, n));
            || verdict == Ok(st.versions[n])
            || (n in st.uncertain && verdict == Landed(st.uncertain[n])
                && store[c.Place(bi, n)] == c.Value(bi, n, st.uncertain[n]))
  {
    var v := StoredVersion(c, st, store, bi, n);
    SingleVerdict(c, bi, n, v, st.versions[n], Uncertain(st, n));
  }

  function Uncertain(st: BucketState, n: nat): Option<int> {
    if n in st.uncertain then Some(st.uncertain[n]) else None
  }

  ghost predicate AllHold(c: Config, states: seq<BucketState>, store: Store) {
    && c.Valid() && |states| == |c.buckets|
    && forall bi: nat, n: nat :: bi < |states| ==> Holds(c, states[bi], store, bi, n)
  }

  predicate SameElsewhere(a: Store, b: Store, place: (Bytes, Bytes)) {
    && (forall k :: k in a && k != place ==> k in b && b[k] == a[k])
    && (forall k :: k in b && k != place ==> k in a)
  }

  predicate SameBeside(a: BucketState, b: BucketState, n: nat) {
    && a.nextKey <= b.nextKey
    && a.versions - {n} == b.versions - {n}
    && a.uncertain - {n} == b.uncertain - {n}
  }

  lemma BesideKey(a: BucketState, b: BucketState, n: nat, m: nat)
    requires SameBeside(a, b, n) && m != n
    ensures m in a.versions <==> m in b.versions
    ensures m in a.versions ==> a.versions[m] == b.versions[m]
    ensures m in a.uncertain <==> m in b.uncertain
    ensures m in a.uncertain ==> a.uncertain[m] == b.uncertain[m]
  {
    assert m in a.versions <==> m in a.versions - {n};
    assert m in b.versions <==> m in b.versions - {n};
    assert m in a.uncertain <==> m in a.uncertain - {n};
    assert m in b.uncertain <==> m in b.uncertain - {n};
    assert m in a.versions ==> (a.versions - {n})[m] == a.versions[m];
    assert m in a.uncertain ==> (a.uncertain - {n})[m] == a.uncertain[m];
  }

  /** An operation on one key leaves every other key of the thread as it was. */
  lemma OneKeyMoves(c: Config, states: seq<BucketState>, store: Store, bi: nat, n: nat, st: BucketState, after: Store)
    requires AllHold(c, states, store) && bi < |states|
    requires SameElsewhere(store, after, c.Place(bi, n)) && SameBeside(states[bi], st, n)
    requires Holds(c, st, after, bi, n)
    ensures AllHold(c, states[bi := st], after)
  {
    var states' := states[bi := st];
    forall bj: nat, m: nat | bj < |states'|
      ensures Holds(c, states'[bj], after, bj, m)
    {
      if bj != bi || m != n {
        assert Holds(c, states[bj], store, bj, m);
        assert c.Place(bj, m) != c.Place(bi, n) by {
          if c.Place(bj, m) == c.Place(bi, n) {
            PlacesDiffer(c, c, bj, m, bi, n);
          }
        }
        if bj == bi {
          BesideKey(states[bi], st, n, m);
        }
      }
    }
  }

  // ---------- one operation ----------

  /** The state while a put of key n is out: its version is uncertain until Riak answers. */
  function Putting(st: BucketState, n: nat): BucketState {
    st.(uncertain := st.uncertain[n := st.Version(n) + 1], nextKey := if n == st.nextKey then n + 1 else st.nextKey)
  }

  /** The state once Riak has acknowledged it. */
  function Acknowledged(st: BucketState, n: nat, reply: ClockReply): BucketState {
    Putting(st, n).(versions := st.versions[n := st.Version(n) + 1],
                    vclocks := if reply.Clock? then st.vclocks[n := reply.vclock] else st.vclocks,
                    uncertain := st.uncertain - {n})
  }

  /** A put whose outcome is unknown keeps the relation, whether it took effect or not. */
  lemma UnknownPutHolds(c: Config, st: BucketState, store: Store, bi: nat, n: nat, after: Store)
    requires bi < |c.buckets| && Holds(c, st, store, bi, n) && n <= st.nextKey
    requires after == store || after == store[c.Place(bi, n) := c.Value(bi, n, st.Version(n) + 1)]
    ensures Holds(c, Putting(st, n), after, bi, n)
    ensures SameBeside(st, Putting(st, n), n)
  {
    assert Putting(st, n).uncertain - {n} == st.uncertain - {n};
  }

  /** So does an acknowledged one. */
  lemma AcknowledgedPutHolds(c: Config, st: BucketState, store: Store, bi: nat, n: nat, reply: ClockReply)
    requires bi < |c.buckets| && Holds(c, st, store, bi, n) && n <= st.nextKey
    ensures Holds(c, Acknowledged(st, n, reply), store[c.Place(bi, n) := c.Value(bi, n, st.Version(n) + 1)], bi, n)
    ensures SameBeside(st, Acknowledged(st, n, reply), n)
  {
    var st' := Acknowledged(st, n, reply);
    assert st'.versions - {n} == st.versions - {n};
    assert st'.uncertain - {n} == st.uncertain - {n};
  }

  /** Adopting the uncertain version that was read back. */
  function Adopted(st: BucketState, n: nat, vclock: Option<Bytes>): BucketState
    requires n in st.uncertain
  {
    st.(versions := st.versions[n := st.uncertain[n]],
        uncertain := st.uncertain - {n},
        vclocks := if vclock.Some? then st.vclocks[n := vclock] else st.vclocks)
  }

  lemma AdoptedHolds(c: Config, st: BucketState, store: Store, bi: nat, n: nat, vclock: Option<Bytes>)
    requires bi < |c.buckets| && Holds(c, st, store, bi, n) && n in st.versions && n in st.uncertain
    requires store[c.Place(bi, n)] == c.Value(bi, n, st.uncertain[n])
    ensures Holds(c, Adopted(st, n, vclock), store, bi, n)
    ensures SameBeside(st, Adopted(st, n, vclock), n)
  {
    var st' := Adopted(st, n, vclock);
    assert st'.versions - {n} == st.versions - {n};
    assert st'.uncertain - {n} == st.uncertain - {n};
  }

  // ---------- the thread ----------

  /** How a put call ends: with an answer, or failing with the put in effect or not, so far. An answer
      that cannot be parsed ends the thread; its runs are among those that stop there. */
  datatype PutReply = Answered(body: Bytes) | FailedAfter | FailedBefore

  /** One operation and how its call ends; `final` marks a read of the final verification. LateOp
      is not the thread's: a put that failed without effect takes effect after all. */
  datatype Op =
    | PutOp(bi: nat, n: nat, reply: PutReply)
    | GetOp(bi: nat, n: nat, final: bool, fails: bool)
    | LateOp(bi: nat, n: nat, version: int)

  /** What a thread holds and the Riak it talks to. */
  datatype World = World(states: seq<BucketState>, stats: Stats, store: Store)

  /** The operations the worker loop can choose: any key written so far, or the next new one, is
      put; only keys with an acknowledged version are read. */
  predicate Possible(c: Config, w: World, op: Op) {
    && c.Valid() && |w.states| == |c.buckets| && op.bi < |c.buckets|
    && match op
       case PutOp(bi, n, _) => n <= w.states[bi].nextKey
       case GetOp(bi, n, _, _) => n in w.states[bi].versions
       case LateOp(_, _, _) => true
  }

  function AfterPut(c: Config, w: World, bi: nat, n: nat, reply: PutReply): World
    requires Possible(c, w, PutOp(bi, n, reply))
  {
    var st := w.states[bi];
    var value := c.Value(bi, n, st.Version(n) + 1);
    var stored := w.store[c.Place(bi, n) := value];
    match reply
    case Answered(body) =>
      World(w.states[bi := Acknowledged(st, n, PutVclock(body))], w.stats.(puts := w.stats.puts + 1), stored)
    case FailedAfter => World(w.states[bi := Putting(st, n)], w.stats.(errors := w.stats.errors + 1), stored)
    case FailedBefore => World(w.states[bi := Putting(st, n)], w.stats.(errors := w.stats.errors + 1), w.store)
  }

  /** record_read: the counters and the adopted version. */
  function CountVerdict(stats: Stats, verdict: Verdict, final: bool): Stats {
    match verdict
    case Ok(_) => stats
    case Corrupt =>
      if final then stats.(finalCorrupt := stats.finalCorrupt + 1) else stats.(corrupt := stats.corrupt + 1)
    case Landed(_) => stats.(landed := stats.landed + 1)
    case Ahead(_) => stats.(ahead := stats.ahead + 1)
    case Stale(_) => stats.(stale := stats.stale + 1)
  }

  function AdoptVerdict(st: BucketState, n: nat, verdict: Verdict, vclock: Option<Bytes>): BucketState {
    if verdict.Ok? || verdict.Corrupt? then st
    else
      st.(versions := st.versions[n := verdict.version],
          uncertain := if verdict.Landed? then st.uncertain - {n} else st.uncertain,
          vclocks := if vclock.Some? then st.vclocks[n := vclock] else st.vclocks)
  }

  /** record_read on the state and the counters. */
  function AfterRead(c: Config, w: World, bi: nat, n: nat, values: seq<Bytes>, vclock: Option<Bytes>, final: bool): World
    requires bi < |w.states| && n in w.states[bi].versions && values != []
  {
    var st := w.states[bi];
    var verdict := VerdictOf(c.digest, values, st.versions[n], Uncertain(st, n), c.ValueKey(bi, n));
    World(w.states[bi := AdoptVerdict(st, n, verdict, vclock)], CountVerdict(w.stats, verdict, final), w.store)
  }

  function CountReply(stats: Stats, values: nat, final: bool): Stats {
    if final then stats.(verified := stats.verified + 1, finalLost := stats.finalLost + if values == 0 then 1 else 0)
    else stats.(gets := stats.gets + 1, lost := stats.lost + (if values == 0 then 1 else 0),
                siblings := stats.siblings + if values > 1 then 1 else 0)
  }

  function AfterReply(c: Config, w: World, bi: nat, n: nat, reply: GetReply, final: bool): World
    requires bi < |w.states| && n in w.states[bi].versions
  {
    var counted := w.(stats := CountReply(w.stats, |reply.values|, final));
    if reply.values == [] then counted else AfterRead(c, counted, bi, n, reply.values, reply.vclock, final)
  }

  /** What a get of a key that is stored or not returns. */
  function Fetched(store: Store, place: (Bytes, Bytes)): GetReply {
    if place in store then GetReply([store[place]], Some(CLOCK), false) else GetReply([], None, false)
  }

  function Step(c: Config, w: World, op: Op): World
    requires Possible(c, w, op)
  {
    match op
    case PutOp(bi, n, reply) => AfterPut(c, w, bi, n, reply)
    case GetOp(bi, n, final, fails) =>
      if fails then w.(stats := w.stats.(errors := w.stats.errors + 1))
      else AfterReply(c, w, bi, n, Fetched(w.store, c.Place(bi, n)), final)
    case LateOp(bi, n, version) => w.(store := w.store[c.Place(bi, n) := c.Value(bi, n, version)])
  }

  /** The request, decoded, puts this value under this key, with this clock if it is not empty. */
  predicate AsksToPut(c: Config, msg: Bytes, bi: nat, n: nat, value: Bytes, vclock: Option<Bytes>)
    requires c.Valid() && bi < |c.buckets|
  {
    var f := Dict(Parse(msg).fields);
    4 in f && f[4].Sized? &&
    var content := Dict(Parse(f[4].data).fields);
    && PutDecoded(f, c.btypes[bi], c.buckets[bi], c.KeyBytes(bi, n), f[4].data, vclock, c.pw)
    && 1 in content && content[1] == Sized(1, value)
  }

  lemma PutAsks(c: Config, bi: nat, n: nat, value: Bytes, vclock: Option<Bytes>)
    requires c.Valid() && bi < |c.buckets|
    ensures AsksToPut(c, c.PutRequest(bi, n, value, vclock), bi, n, value, vclock)
  {
    PutReqDecodes(c.btypes[bi], c.buckets[bi], c.KeyBytes(bi, n), value, vclock, c.pw);
    ContentDecodes(value);
  }

  predicate AsksToGet(c: Config, msg: Bytes, bi: nat, n: nat)
    requires c.Valid() && bi < |c.buckets|
  {
    GetDecoded(Dict(Parse(msg).fields), c.btypes[bi], c.buckets[bi], c.KeyBytes(bi, n), c.pr)
  }

  lemma GetAsks(c: Config, bi: nat, n: nat)
    requires c.Valid() && bi < |c.buckets|
    ensures AsksToGet(c, c.GetRequest(bi, n), bi, n)
  {
    GetReqDecodes(c.btypes[bi], c.buckets[bi], c.KeyBytes(bi, n), c.pr);
  }

  class Worker {
    const c: Config
    var states: seq<BucketState>
    var stats: Stats
    var store: Store  // the Riak it talks to
    ghost var sent: seq<Bytes>  // every request made, in order

    function Now(): World
      reads this
    {
      World(states, stats, store)
    }

    constructor (c: Config, store: Store)
      requires c.Valid()
      ensures this.c == c && Now() == Started(c, store) && sent == []
    {
      this.c := c;
      this.store := store;
      stats := NO_STATS;
      states := Started(c, store).states;
      sent := [];
    }

    /** The put request over the wire, where it takes effect or not. */
    method SendPut(bi: nat, n: nat, value: Bytes, vclock: Option<Bytes>, lands: bool)
      requires c.Valid() && bi < |c.buckets|
      modifies this`store, this`sent
      ensures store == if lands then old(store)[c.Place(bi, n) := value] else old(store)
      ensures sent == old(sent) + [c.PutRequest(bi, n, value, vclock)]
    {
      var msg := PutReq(c.btypes[bi], c.buckets[bi], c.KeyBytes(bi, n), value, vclock, c.pw);
      sent := sent + [msg];
      PutStores(store, c.btypes[bi], c.buckets[bi], c.KeyBytes(bi, n), value, vclock, c.pw);
      if lands {
        store := StorePut(store, msg).value;
      }
    }

    /** The get request and its reply over the wire. */
    method SendGet(bi: nat, n: nat) returns (reply: GetReply)
      requires c.Valid() && bi < |c.buckets|
      modifies this`sent
      ensures reply == Fetched(store, c.Place(bi, n))
      ensures sent == old(sent) + [c.GetRequest(bi, n)]
    {
      var msg := GetReq(c.btypes[bi], c.buckets[bi], c.KeyBytes(bi, n), c.pr);
      sent := sent + [msg];
      GetReads(store, c.btypes[bi], c.buckets[bi], c.KeyBytes(bi, n), c.pr);
      reply := DecodeGet(StoreGet(store, msg).value);
    }

    /** Before the call: the version to write is uncertain until Riak answers. */
    method BeginPut(bi: nat, n: nat) returns (version: int)
      requires bi < |states|
      modifies this`states
      ensures version == old(states[bi]).Version(n) + 1
      ensures states == old(states)[bi := Putting(old(states[bi]), n)]
    {
      var st := states[bi];
      if n == st.nextKey {
        st := st.(nextKey := n + 1);
      }
      version := st.Version(n) + 1;
      st := st.(uncertain := st.uncertain[n := version]);
      states := states[bi := st];
    }

    /** After the answer: the version is the key's latest. */
    method EndPut(bi: nat, n: nat, version: int, body: Bytes, ghost was: BucketState)
      requires bi < |states| && states[bi] == Putting(was, n) && version == was.Version(n) + 1
      modifies this`states
      ensures states == old(states)[bi := Acknowledged(was, n, PutVclock(body))]
    {
      var st := states[bi];
      assert st.uncertain - {n} == was.uncertain - {n};
      st := st.(uncertain := st.uncertain - {n});
      st := st.(versions := st.versions[n := version]);
      var clock := DecodePutVclock(body);
      if clock.Clock? {
        st := st.(vclocks := st.vclocks[n := clock.vclock]);
      }
      states := states[bi := st];
    }

    /** The put of the worker loop, up to the answer: the request carries the clock last seen. */
    method CallPut(bi: nat, n: nat, lands: bool) returns (version: int)
      requires c.Valid() && |states| == |c.buckets| && bi < |states|
      modifies this`states, this`store, this`sent
      ensures version == old(states[bi]).Version(n) + 1
      ensures states == old(states)[bi := Putting(old(states[bi]), n)]
      ensures store == if lands then old(store)[c.Place(bi, n) := c.Value(bi, n, version)] else old(store)
      ensures sent == old(sent) + [c.PutRequest(bi, n, c.Value(bi, n, version), old(states[bi]).Clock(n))]
    {
      var vclock := if n in states[bi].vclocks then states[bi].vclocks[n] else None;
      version := BeginPut(bi, n);
      SendPut(bi, n, c.Value(bi, n, version), vclock, lands);
    }

    /** The put of the worker loop. */
    method Put(bi: nat, n: nat, reply: PutReply)
      requires Possible(c, Now(), PutOp(bi, n, reply))
      modifies this
      ensures Now() == AfterPut(c, old(Now()), bi, n, reply)
      ensures var st := old(states[bi]);
              sent == old(sent) + [c.PutRequest(bi, n, c.Value(bi, n, st.Version(n) + 1), st.Clock(n))]
    {
      ghost var was := states[bi];
      var version := CallPut(bi, n, !reply.FailedBefore?);
      if !reply.Answered? {
        stats := stats.(errors := stats.errors + 1);
        return;
      }
      EndPut(bi, n, version, reply.body, was);
      stats := stats.(puts := stats.puts + 1);
    }

    /** record_read. */
    method RecordRead(bi: nat, n: nat, values: seq<Bytes>, vclock: Option<Bytes>, final: bool)
      requires bi < |states| && n in states[bi].versions && values != []
      modifies this`states, this`stats
      ensures Now() == AfterRead(c, old(Now()), bi, n, values, vclock, final)
    {
      var st := states[bi];
      var verdict := Judge(c.digest, values, st.versions[n], Uncertain(st, n), c.ValueKey(bi, n));
      if verdict.Ok? {
        return;
      }
      if verdict.Corrupt? {
        stats := if final then stats.(finalCorrupt := stats.finalCorrupt + 1) else stats.(corrupt := stats.corrupt + 1);
        return;
      }
      if verdict.Landed? {
        stats := stats.(landed := stats.landed + 1);
        st := st.(uncertain := st.uncertain - {n});
      } else if verdict.Ahead? {
        stats := stats.(ahead := stats.ahead + 1);
      } else {
        stats := stats.(stale := stats.stale + 1);
      }
      st := st.(versions := st.versions[n := verdict.version]);
      if vclock.Some? {
        st := st.(vclocks := st.vclocks[n := vclock]);
      }
      states := states[bi := st];
    }

    /** What the worker does with any reply to a get. */
    method HandleReply(bi: nat, n: nat, reply: GetReply, final: bool)
      requires bi < |states| && n in states[bi].versions
      modifies this`states, this`stats
      ensures Now() == AfterReply(c, old(Now()), bi, n, reply, final)
    {
      stats := if final then stats.(verified := stats.verified + 1) else stats.(gets := stats.gets + 1);
      if reply.values == [] {
        stats := if final then stats.(finalLost := stats.finalLost + 1) else stats.(lost := stats.lost + 1);
      } else {
        if !final && |reply.values| > 1 {
          stats := stats.(siblings := stats.siblings + 1);
        }
        RecordRead(bi, n, reply.values, reply.vclock, final);
      }
    }

    /** The read of the worker loop and of the final verification, over the wire. */
    method Get(bi: nat, n: nat, final: bool, fails: bool)
      requires Possible(c, Now(), GetOp(bi, n, final, fails))
      modifies this`states, this`stats, this`sent
      ensures Now() == Step(c, old(Now()), GetOp(bi, n, final, fails))
      ensures sent == old(sent) + if fails then [] else [c.GetRequest(bi, n)]
    {
      if fails {
        stats := stats.(errors := stats.errors + 1);
        return;
      }
      var reply := SendGet(bi, n);
      HandleReply(bi, n, reply, final);
    }
  }

  const NO_STATS := Stats(0, 0, 0, 0, 0, 0, 0, 0, 0, 0, 0, 0)

  function Started(c: Config, store: Store): World {
    World(seq(|c.buckets|, i => BucketState(map[], map[], map[], 0)), NO_STATS, store)
  }

  // ---------- whole runs ----------

  ghost predicate Inv(c: Config, w: World) {
    AllHold(c, w.states, w.store) && w.stats.Clean()
  }

  lemma PutKeeps(c: Config, w: World, bi: nat, n: nat, reply: PutReply)
    requires Inv(c, w) && Possible(c, w, PutOp(bi, n, reply))
    ensures Inv(c, AfterPut(c, w, bi, n, reply))
  {
    var st, w' := w.states[bi], AfterPut(c, w, bi, n, reply);
    assert Holds(c, st, w.store, bi, n);
    if reply.Answered? {
      AcknowledgedPutHolds(c, st, w.store, bi, n, PutVclock(reply.body));
    } else {
      UnknownPutHolds(c, st, w.store, bi, n, w'.store);
    }
    OneKeyMoves(c, w.states, w.store, bi, n, w'.states[bi], w'.store);
  }

  lemma GetKeeps(c: Config, w: World, bi: nat, n: nat, final: bool)
    requires Inv(c, w) && Possible(c, w, GetOp(bi, n, final, false))
    ensures Inv(c, AfterReply(c, w, bi, n, Fetched(w.store, c.Place(bi, n)), final))
  {
    var st := w.states[bi];
    assert Holds(c, st, w.store, bi, n);
    var values := [w.store[c.Place(bi, n)]];
    var verdict := VerdictOf(c.digest, values, st.versions[n], Uncertain(st, n), c.ValueKey(bi, n));
    ReadIsExplained(c, st, w.store, bi, n);
    if verdict.Ok? {
      assert w.states[bi := st] == w.states;
    } else {
      AdoptedHolds(c, st, w.store, bi, n, Some(CLOCK));
      OneKeyMoves(c, w.states, w.store, bi, n, Adopted(st, n, Some(CLOCK)), w.store);
    }
  }

  /** A version the thread still accounts for: the acknowledged or the uncertain one. */
  predicate Accounted(st: BucketState, n: nat, version: int) {
    || (n in st.versions && version == st.versions[n])
    || (n in st.uncertain && version == st.uncertain[n])
  }

  lemma LateKeeps(c: Config, w: World, bi: nat, n: nat, version: int)
    requires Inv(c, w) && bi < |w.states| && Accounted(w.states[bi], n, version)
    ensures Inv(c, Step(c, w, LateOp(bi, n, version)))
  {
    var st, w' := w.states[bi], Step(c, w, LateOp(bi, n, version));
    assert Holds(c, st, w.store, bi, n);
    assert w.states[bi := st] == w.states;
    OneKeyMoves(c, w.states, w.store, bi, n, st, w'.store);
  }

  /** Every operation keeps the invariant, however its call ends, and so does a late effect of a
      version still accounted for. */
  lemma StepKeeps(c: Config, w: World, op: Op)
    requires Inv(c, w) && Possible(c, w, op)
    requires op.LateOp? ==> Accounted(w.states[op.bi], op.n, op.version)
    ensures Inv(c, Step(c, w, op))
  {
    match op
    case PutOp(bi, n, reply) => PutKeeps(c, w, bi, n, reply);
    case GetOp(bi, n, final, fails) =>
      if !fails {
        GetKeeps(c, w, bi, n, final);
      }
    case LateOp(bi, n, version) => LateKeeps(c, w, bi, n, version);
  }

  /** Every key of the thread is new to the store. */
  ghost predicate NoneStored(c: Config, store: Store) {
    forall bi: nat, n: nat :: bi < |c.buckets| ==> c.Place(bi, n) !in store
  }

  lemma StartHolds(c: Config, store: Store)
    requires c.Valid() && NoneStored(c, store)
    ensures Inv(c, Started(c, store))
  {
  }

  /** The world after some operations; one the thread could not choose changes nothing. */
  function After(c: Config, ops: seq<Op>, store: Store): World {
    if ops == [] then Started(c, store)
    else
      var w, op := After(c, ops[..|ops| - 1], store), ops[|ops| - 1];
      if Possible(c, w, op) then Step(c, w, op) else w
  }

  /** Among the operations is a put of that version that failed without effect. */
  predicate FailedPut(c: Config, ops: seq<Op>, store: Store, bi: nat, n: nat, version: int) {
    ops != [] &&
    var w, op := After(c, ops[..|ops| - 1], store), ops[|ops| - 1];
    || FailedPut(c, ops[..|ops| - 1], store, bi, n, version)
    || (op == PutOp(bi, n, FailedBefore) && bi < |w.states| && version == w.states[bi].Version(n) + 1)
  }

  /** A run from the start: each operation is one the thread could choose in the state it finds,
      and only puts that failed before take effect late. */
  ghost predicate IsRun(c: Config, ops: seq<Op>, store: Store) {
    && c.Valid() && NoneStored(c, store)
    && (ops == [] ||
        var before, op := ops[..|ops| - 1], ops[|ops| - 1];
        && IsRun(c, before, store) && Possible(c, After(c, before, store), op)
        && (op.LateOp? ==> FailedPut(c, before, store, op.bi, op.n, op.version)))
  }

  /** Late effects land before a newer version of their key is acknowledged. */
  predicate LandInTime(c: Config, ops: seq<Op>, store: Store) {
    ops == [] ||
    (var before, op := ops[..|ops| - 1], ops[|ops| - 1];
     var w := After(c, before, store);
     && LandInTime(c, before, store)
     && (op.LateOp? && op.bi < |w.states| ==> w.states[op.bi].Version(op.n) <= op.version))
  }

  /** A put that failed leaves its version uncertain until it is acknowledged or read back. */
  predicate Owed(st: BucketState, n: nat, version: int) {
    || (n in st.versions && st.versions[n] >= version)
    || (n in st.uncertain && st.Version(n) + 1 == version)
  }

  lemma StepOwed(c: Config, w: World, op: Op, bi: nat, n: nat, version: int)
    requires Inv(c, w) && Possible(c, w, op) && bi < |w.states| && Owed(w.states[bi], n, version)
    ensures Owed(Step(c, w, op).states[bi], n, version)
  {
    if op.GetOp? && !op.fails && op.bi == bi {
      assert Holds(c, w.states[bi], w.store, bi, op.n);
      ReadIsExplained(c, w.states[bi], w.store, bi, op.n);
    }
  }

  lemma OwedIsAccounted(c: Config, w: World, bi: nat, n: nat, version: int)
    requires Inv(c, w) && bi < |w.states| && Owed(w.states[bi], n, version) && w.states[bi].Version(n) <= version
    ensures Accounted(w.states[bi], n, version)
  {
    assert Holds(c, w.states[bi], w.store, bi, n);
  }

  lemma FailingPutOwes(c: Config, w: World, bi: nat, n: nat)
    requires Possible(c, w, PutOp(bi, n, FailedBefore))
    ensures Owed(Step(c, w, PutOp(bi, n, FailedBefore)).states[bi], n, w.states[bi].Version(n) + 1)
  {
  }

  lemma {:induction false} RunHolds(c: Config, ops: seq<Op>, store: Store, bi: nat, n: nat, version: int)
    requires IsRun(c, ops, store) && LandInTime(c, ops, store)
    ensures Inv(c, After(c, ops, store))
    ensures FailedPut(c, ops, store, bi, n, version) ==>
              bi < |After(c, ops, store).states| && Owed(After(c, ops, store).states[bi], n, version)
  {
    if ops == [] {
      StartHolds(c, store);
    } else {
      var before, op := ops[..|ops| - 1], ops[|ops| - 1];
      var w := After(c, before, store);
      RunHolds(c, before, store, bi, n, version);
      if op.LateOp? {
        RunHolds(c, before, store, op.bi, op.n, op.version);
        OwedIsAccounted(c, w, op.bi, op.n, op.version);
      }
      StepKeeps(c, w, op);
      if FailedPut(c, before, store, bi, n, version) {
        StepOwed(c, w, op, bi, n, version);
      } else if FailedPut(c, ops, store, bi, n, version) {
        FailingPutOwes(c, w, bi, n);
      }
    }
  }

  /** Whatever the thread chooses, whichever calls fail, and however late a failed put takes effect
      as long as no newer version is acknowledged, nothing is ever reported lost, corrupt, stale or
      ahead, and every key holds the acknowledged version or the next one. */
  lemma NothingIsReported(c: Config, ops: seq<Op>, store: Store)
    requires IsRun(c, ops, store) && LandInTime(c, ops, store)
    ensures After(c, ops, store).stats.Clean()
    ensures AllHold(c, After(c, ops, store).states, After(c, ops, store).store)
  {
    RunHolds(c, ops, store, 0, 0, 0);
  }

  // ---------- exactly what is reported ----------

  /** Any store the thread can meet: a key read holds some version of its value. */
  ghost predicate Genuine(c: Config, st: BucketState, store: Store, bi: nat, n: nat)
    requires bi < |c.buckets|
  {
    && (n in st.versions ==> c.Place(bi, n) in store)
    && (c.Place(bi, n) in store ==> exists v: int :: store[c.Place(bi, n)] == c.Value(bi, n, v))
  }

  ghost predicate AllGenuine(c: Config, w: World) {
    && c.Valid() && |w.states| == |c.buckets|
    && forall bi: nat, n: nat :: bi < |w.states| ==> Genuine(c, w.states[bi], w.store, bi, n)
  }

  /** What a read of the key finds is a version the thread accounts for. */
  predicate Explained(c: Config, w: World, bi: nat, n: nat)
    requires bi < |c.buckets| && bi < |w.states|
  {
    var st, place := w.states[bi], c.Place(bi, n);
    && n in st.versions && place in w.store
    && (|| w.store[place] == c.Value(bi, n, st.versions[n])
        || (n in st.uncertain && w.store[place] == c.Value(bi, n, st.uncertain[n])))
  }

  lemma SameValueSameVersion(c: Config, bi: nat, n: nat, v: int, u: int)
    requires c.Value(bi, n, v) == c.Value(bi, n, u)
    ensures v == u
  {
    SingleVerdict(c, bi, n, v, u, None);
    SingleVerdict(c, bi, n, u, u, None);
  }

  lemma CountedClean(stats: Stats, verdict: Verdict, final: bool)
    ensures CountVerdict(CountReply(stats, 1, final), verdict, final).Clean() <==>
            stats.Clean() && (verdict.Ok? || verdict.Landed?)
  {
  }

  /** A read that finds version v reports nothing exactly when v is accounted for. */
  lemma ReadOfVersion(c: Config, w: World, bi: nat, n: nat, v: int, final: bool)
    requires bi < |c.buckets| && bi < |w.states| && n in w.states[bi].versions
    requires c.Place(bi, n) in w.store && w.store[c.Place(bi, n)] == c.Value(bi, n, v)
    ensures AfterReply(c, w, bi, n, Fetched(w.store, c.Place(bi, n)), final).stats.Clean() <==>
            w.stats.Clean() && Accounted(w.states[bi], n, v)
  {
    var st := w.states[bi];
    var verdict := Judged([v], st.versions[n], Uncertain(st, n));
    SingleVerdict(c, bi, n, v, st.versions[n], Uncertain(st, n));
    CountedClean(w.stats, verdict, final);
  }

  lemma ExplainedIff(c: Config, w: World, bi: nat, n: nat, v: int)
    requires bi < |c.buckets| && bi < |w.states| && n in w.states[bi].versions
    requires c.Place(bi, n) in w.store && w.store[c.Place(bi, n)] == c.Value(bi, n, v)
    ensures Explained(c, w, bi, n) <==> Accounted(w.states[bi], n, v)
  {
    var st := w.states[bi];
    if w.store[c.Place(bi, n)] == c.Value(bi, n, st.versions[n]) {
      SameValueSameVersion(c, bi, n, v, st.versions[n]);
    } else if n in st.uncertain && w.store[c.Place(bi, n)] == c.Value(bi, n, st.uncertain[n]) {
      SameValueSameVersion(c, bi, n, v, st.uncertain[n]);
    }
  }

  /** A read reports something if and only if it is not explained. */
  lemma ReadReportsIff(c: Config, w: World, bi: nat, n: nat, final: bool)
    requires bi < |c.buckets| && bi < |w.states| && n in w.states[bi].versions && Genuine(c, w.states[bi], w.store, bi, n)
    ensures AfterReply(c, w, bi, n, Fetched(w.store, c.Place(bi, n)), final).stats.Clean() <==>
            w.stats.Clean() && Explained(c, w, bi, n)
  {
    var v: int :| w.store[c.Place(bi, n)] == c.Value(bi, n, v);
    ReadOfVersion(c, w, bi, n, v, final);
    ExplainedIff(c, w, bi, n, v);
  }

  /** An operation on one key keeps every key genuine. */
  lemma GenuineMoves(c: Config, w: World, bi: nat, n: nat, st: BucketState, after: Store)
    requires AllGenuine(c, w) && bi < |w.states|
    requires SameElsewhere(w.store, after, c.Place(bi, n))
    requires forall m :: m != n && m in st.versions ==> m in w.states[bi].versions
    requires Genuine(c, st, after, bi, n)
    ensures AllGenuine(c, w.(states := w.states[bi := st], store := after))
  {
    var states' := w.states[bi := st];
    forall bj: nat, m: nat | bj < |states'| ensures Genuine(c, states'[bj], after, bj, m) {
      if bj != bi || m != n {
        assert Genuine(c, w.states[bj], w.store, bj, m);
        assert c.Place(bj, m) != c.Place(bi, n) by {
          if c.Place(bj, m) == c.Place(bi, n) {
            PlacesDiffer(c, c, bj, m, bi, n);
          }
        }
      }
    }
  }

  lemma PutGenuine(c: Config, w: World, bi: nat, n: nat, reply: PutReply)
    requires AllGenuine(c, w) && Possible(c, w, PutOp(bi, n, reply))
    ensures AllGenuine(c, AfterPut(c, w, bi, n, reply))
  {
    var st, w' := w.states[bi], AfterPut(c, w, bi, n, reply);
    assert Genuine(c, st, w.store, bi, n);
    assert reply != FailedBefore ==> w'.store[c.Place(bi, n)] == c.Value(bi, n, st.Version(n) + 1);
    GenuineMoves(c, w, bi, n, w'.states[bi], w'.store);
  }

  lemma ReadGenuine(c: Config, w: World, bi: nat, n: nat, reply: GetReply, final: bool)
    requires AllGenuine(c, w) && bi < |w.states| && n in w.states[bi].versions
    ensures AllGenuine(c, AfterReply(c, w, bi, n, reply, final))
  {
    var st, w' := w.states[bi], AfterReply(c, w, bi, n, reply, final);
    assert Genuine(c, st, w.store, bi, n);
    assert w'.states == w.states[bi := w'.states[bi]];
    GenuineMoves(c, w, bi, n, w'.states[bi], w.store);
  }

  lemma LateGenuine(c: Config, w: World, bi: nat, n: nat, version: int)
    requires AllGenuine(c, w) && bi < |w.states|
    ensures AllGenuine(c, w.(store := w.store[c.Place(bi, n) := c.Value(bi, n, version)]))
  {
    var st, store := w.states[bi], w.store[c.Place(bi, n) := c.Value(bi, n, version)];
    assert store[c.Place(bi, n)] == c.Value(bi, n, version);
    assert w.states[bi := st] == w.states;
    GenuineMoves(c, w, bi, n, st, store);
  }

  lemma StepGenuine(c: Config, w: World, op: Op)
    requires AllGenuine(c, w) && Possible(c, w, op)
    ensures AllGenuine(c, Step(c, w, op))
  {
    match op
    case PutOp(bi, n, reply) => PutGenuine(c, w, bi, n, reply);
    case GetOp(bi, n, final, fails) =>
      if !fails {
        ReadGenuine(c, w, bi, n, Fetched(w.store, c.Place(bi, n)), final);
      }
    case LateOp(bi, n, version) => LateGenuine(c, w, bi, n, version);
  }

  /** Is this operation a read that was answered? */
  predicate Reads(op: Op) { op.GetOp? && !op.fails }

  lemma StepReportsIff(c: Config, w: World, op: Op)
    requires AllGenuine(c, w) && Possible(c, w, op)
    ensures Step(c, w, op).stats.Clean() <==> w.stats.Clean() && (Reads(op) ==> Explained(c, w, op.bi, op.n))
  {
    if Reads(op) {
      assert Genuine(c, w.states[op.bi], w.store, op.bi, op.n);
      ReadReportsIff(c, w, op.bi, op.n, op.final);
    }
  }

  /** Every read that was answered found a version the thread accounts for. */
  predicate ReadsExplained(c: Config, ops: seq<Op>, store: Store) {
    ops == [] ||
    (var before, op := ops[..|ops| - 1], ops[|ops| - 1];
     var w := After(c, before, store);
     && ReadsExplained(c, before, store)
     && (Reads(op) && op.bi < |c.buckets| && op.bi < |w.states| ==> Explained(c, w, op.bi, op.n)))
  }

  lemma StartGenuine(c: Config, store: Store)
    requires c.Valid() && NoneStored(c, store)
    ensures AllGenuine(c, Started(c, store))
  {
  }

  /** In any run, with failed puts taking effect as late as they like, something is reported if and
      only if some read found a version the thread no longer accounts for. */
  lemma {:induction false} ReportedIff(c: Config, ops: seq<Op>, store: Store)
    requires IsRun(c, ops, store)
    ensures AllGenuine(c, After(c, ops, store))
    ensures After(c, ops, store).stats.Clean() <==> ReadsExplained(c, ops, store)
  {
    if ops == [] {
      StartGenuine(c, store);
    } else {
      var before, op := ops[..|ops| - 1], ops[|ops| - 1];
      var w := After(c, before, store);
      ReportedIff(c, before, store);
      StepGenuine(c, w, op);
      StepReportsIff(c, w, op);
    }
  }

  /** A late effect of any version goes unreported by the read that follows if and only if the
      version is the acknowledged or the uncertain one. */
  lemma LateIsUnreportedIff(c: Config, w: World, bi: nat, n: nat, version: int, final: bool)
    requires Inv(c, w) && bi < |w.states| && n in w.states[bi].versions
    ensures var late := Step(c, w, LateOp(bi, n, version));
            Step(c, late, GetOp(bi, n, final, false)).stats.Clean() <==> Accounted(w.states[bi], n, version)
  {
    ReadOfVersion(c, Step(c, w, LateOp(bi, n, version)), bi, n, version, final);
  }

  lemma StaleRead(c: Config, w: World, v: int)
    requires c.Valid() && |w.states| == |c.buckets| > 0
    requires 0 in w.states[0].versions && 0 !in w.states[0].uncertain && v < w.states[0].versions[0]
    requires c.Place(0, 0) in w.store && w.store[c.Place(0, 0)] == c.Value(0, 0, v)
    ensures Step(c, w, GetOp(0, 0, false, false)).stats.stale == w.stats.stale + 1
  {
    SingleVerdict(c, 0, 0, v, w.states[0].versions[0], None);
  }

  lemma RunExtends(c: Config, ops: seq<Op>, store: Store, op: Op)
    requires IsRun(c, ops, store) && Possible(c, After(c, ops, store), op)
    requires op.LateOp? ==> FailedPut(c, ops, store, op.bi, op.n, op.version)
    ensures IsRun(c, ops + [op], store) && After(c, ops + [op], store) == Step(c, After(c, ops, store), op)
    ensures forall bi, n, version :: FailedPut(c, ops, store, bi, n, version) ==> FailedPut(c, ops + [op], store, bi, n, version)
  {
    assert (ops + [op])[..|ops|] == ops;
  }

  lemma InTimeExtends(c: Config, ops: seq<Op>, store: Store, op: Op)
    requires LandInTime(c, ops, store) && op.bi < |After(c, ops, store).states|
    ensures LandInTime(c, ops + [op], store) <==>
            (op.LateOp? ==> After(c, ops, store).states[op.bi].Version(op.n) <= op.version)
  {
    assert (ops + [op])[..|ops|] == ops;
  }

  lemma InTimePrefix(c: Config, ops: seq<Op>, store: Store, op: Op)
    requires !op.LateOp?
    ensures LandInTime(c, ops + [op], store) <==> LandInTime(c, ops, store)
  {
    assert (ops + [op])[..|ops|] == ops;
  }

  /** In a run that was in time so far, a failed put that takes effect and is read goes unreported
      if and only if it landed in time. */
  lemma LateIsReportedIff(c: Config, ops: seq<Op>, store: Store, bi: nat, n: nat, version: int, final: bool)
    requires IsRun(c, ops, store) && LandInTime(c, ops, store) && FailedPut(c, ops, store, bi, n, version)
    requires bi < |After(c, ops, store).states| && n in After(c, ops, store).states[bi].versions
    ensures var all := ops + [LateOp(bi, n, version)] + [GetOp(bi, n, final, false)];
            IsRun(c, all, store) && (After(c, all, store).stats.Clean() <==> LandInTime(c, all, store))
  {
    var w, late, get := After(c, ops, store), LateOp(bi, n, version), GetOp(bi, n, final, false);
    RunHolds(c, ops, store, bi, n, version);
    RunExtends(c, ops, store, late);
    RunExtends(c, ops + [late], store, get);
    LateIsUnreportedIff(c, w, bi, n, version, final);
    InTimeExtends(c, ops, store, late);
    InTimePrefix(c, ops + [late], store, get);
    assert Holds(c, w.states[bi], w.store, bi, n);
    if w.states[bi].Version(n) <= version {
      OwedIsAccounted(c, w, bi, n, version);
    }
  }

  /** Putting key 0 of the first bucket: the put fails without effect, and two more are answered. */
  lemma ThreePuts(c: Config, store: Store) returns (ops: seq<Op>)
    requires c.Valid() && NoneStored(c, store) && |c.buckets| > 0
    ensures ops == [PutOp(0, 0, FailedBefore), PutOp(0, 0, Answered([])), PutOp(0, 0, Answered([]))]
    ensures IsRun(c, ops, store) && FailedPut(c, ops, store, 0, 0, 1)
    ensures var w := After(c, ops, store);
            && |w.states| == |c.buckets| && w.stats.Clean()
            && 0 in w.states[0].versions && w.states[0].versions[0] == 2 && 0 !in w.states[0].uncertain
  {
    var fails, answered := PutOp(0, 0, FailedBefore), PutOp(0, 0, Answered([]));
    RunExtends(c, [], store, fails);
    assert [] + [fails] == [fails] && [fails][..0] == [];
    assert FailedPut(c, [fails], store, 0, 0, 1);
    RunExtends(c, [fails], store, answered);
    assert [fails] + [answered] == [fails, answered];
    RunExtends(c, [fails, answered], store, answered);
    ops := [fails, answered] + [answered];
  }

  /** After the puts, the failed one takes effect and the key is read. */
  lemma LateThenRead(c: Config, store: Store, puts: seq<Op>)
    requires IsRun(c, puts, store) && |c.buckets| > 0 && FailedPut(c, puts, store, 0, 0, 1)
    requires var w := After(c, puts, store);
             && |w.states| == |c.buckets| && w.stats.Clean()
             && 0 in w.states[0].versions && w.states[0].versions[0] == 2 && 0 !in w.states[0].uncertain
    ensures var ops := puts + [LateOp(0, 0, 1)] + [GetOp(0, 0, false, false)];
            IsRun(c, ops, store) && After(c, ops, store).stats.stale == 1
  {
    var late, get := LateOp(0, 0, 1), GetOp(0, 0, false, false);
    RunExtends(c, puts, store, late);
    StaleRead(c, After(c, puts + [late], store), 1);
    RunExtends(c, puts + [late], store, get);
  }

  /** A run in which it happens: a put fails, its retry and the next put are answered, the failed
      put takes effect, and the read finds the key stale. */
  lemma LatePutLooksStale(c: Config, store: Store) returns (ops: seq<Op>)
    requires c.Valid() && NoneStored(c, store) && |c.buckets| > 0
    ensures ops == [PutOp(0, 0, FailedBefore), PutOp(0, 0, Answered([])), PutOp(0, 0, Answered([])),
                    LateOp(0, 0, 1), GetOp(0, 0, false, false)]
    ensures IsRun(c, ops, store) && After(c, ops, store).stats.stale == 1
  {
    var puts := ThreePuts(c, store);
    LateThenRead(c, store, puts);
    ops := puts + [LateOp(0, 0, 1)] + [GetOp(0, 0, false, false)];
  }

  // ---------- what is counted and adopted ----------

  /** A read that finds version v, in numbers: v is the key's version from then on; it has landed if it
      was the uncertain one, and else is counted once, as ahead or stale, unless it was expected. */
  lemma ReadOutcome(c: Config, w: World, bi: nat, n: nat, v: int, final: bool)
    requires bi < |c.buckets| && bi < |w.states| && n in w.states[bi].versions
    requires c.Place(bi, n) in w.store && w.store[c.Place(bi, n)] == c.Value(bi, n, v)
    ensures var st, after := w.states[bi], AfterReply(c, w, bi, n, Fetched(w.store, c.Place(bi, n)), final);
            var expected, landed := st.versions[n], n in st.uncertain && st.uncertain[n] == v;
            && n in after.states[bi].versions && after.states[bi].versions[n] == v
            && (n in after.states[bi].uncertain <==> n in st.uncertain && (v == expected || !landed))
            && after.states[bi].Clock(n) == (if v == expected then st.Clock(n) else Some(CLOCK))
            && after.stats == w.stats.(gets := w.stats.gets + (if final then 0 else 1),
                                       verified := w.stats.verified + (if final then 1 else 0),
                                       landed := w.stats.landed + (if v != expected && landed then 1 else 0),
                                       ahead := w.stats.ahead + (if v > expected && !landed then 1 else 0),
                                       stale := w.stats.stale + (if v < expected && !landed then 1 else 0))
  {
    var st := w.states[bi];
    SingleVerdict(c, bi, n, v, st.versions[n], Uncertain(st, n));
    JudgedIff([v], st.versions[n], Uncertain(st, n), v);
  }

  /** So a discrepancy is counted once: reading the key again adds nothing. */
  lemma CountedOnce(c: Config, w: World, bi: nat, n: nat, final: bool, again: bool)
    requires AllGenuine(c, w) && Possible(c, w, GetOp(bi, n, final, false))
    ensures var once := Step(c, w, GetOp(bi, n, final, false));
            && Possible(c, once, GetOp(bi, n, again, false))
            && var twice := Step(c, once, GetOp(bi, n, again, false));
               twice.stats == once.stats.(gets := once.stats.gets + (if again then 0 else 1),
                                          verified := once.stats.verified + (if again then 1 else 0))
  {
    assert Genuine(c, w.states[bi], w.store, bi, n);
    var v: int :| w.store[c.Place(bi, n)] == c.Value(bi, n, v);
    ReadOutcome(c, w, bi, n, v, final);
    ReadOutcome(c, Step(c, w, GetOp(bi, n, final, false)), bi, n, v, again);
  }

  lemma VerdictCounted(stats: Stats, verdict: Verdict, final: bool)
    ensures var a := CountVerdict(stats, verdict, final);
            && a.lost == stats.lost && a.finalLost == stats.finalLost && a.siblings == stats.siblings
            && a.errors == stats.errors && a.puts == stats.puts
            && a.corrupt == stats.corrupt + (if verdict.Corrupt? && !final then 1 else 0)
            && a.finalCorrupt == stats.finalCorrupt + (if verdict.Corrupt? && final then 1 else 0)
  {
  }

  /** Any other reply: nothing found is a loss, a value that is no version of the key is corrupt, and
      several values are siblings, unless it is the final verification that reads them. */
  lemma ReplyOutcome(c: Config, w: World, bi: nat, n: nat, reply: GetReply, final: bool)
    requires bi < |w.states| && n in w.states[bi].versions
    ensures var after := AfterReply(c, w, bi, n, reply, final);
            var none, several := reply.values == [], |reply.values| > 1;
            var bad := !none && HasBadValue(c.digest, c.ValueKey(bi, n), reply.values);
            && after.stats.lost == w.stats.lost + (if none && !final then 1 else 0)
            && after.stats.finalLost == w.stats.finalLost + (if none && final then 1 else 0)
            && after.stats.siblings == w.stats.siblings + (if several && !final then 1 else 0)
            && after.stats.errors == w.stats.errors && after.stats.puts == w.stats.puts
            && after.stats.corrupt == w.stats.corrupt + (if bad && !final then 1 else 0)
            && after.stats.finalCorrupt == w.stats.finalCorrupt + (if bad && final then 1 else 0)
            && (none || bad ==> after.states == w.states)
  {
    if reply.values != [] {
      var st := w.states[bi];
      var verdict := VerdictOf(c.digest, reply.values, st.versions[n], Uncertain(st, n), c.ValueKey(bi, n));
      CorruptIff(c.digest, reply.values, st.versions[n], Uncertain(st, n), c.ValueKey(bi, n));
      VerdictCounted(CountReply(w.stats, |reply.values|, final), verdict, final);
      assert w.states[bi := st] == w.states;
    }
  }

  predicate PutAnswered(op: Op) { op.PutOp? && op.reply.Answered? }

  predicate ReadInLoop(op: Op) { op.GetOp? && !op.fails && !op.final }

  predicate ReadFinally(op: Op) { op.GetOp? && !op.fails && op.final }

  predicate CallFailed(op: Op) { (op.PutOp? && !op.reply.Answered?) || (op.GetOp? && op.fails) }

  function CountOps(ops: seq<Op>, pred: Op -> bool): nat {
    if ops == [] then 0 else CountOps(ops[..|ops| - 1], pred) + (if pred(ops[|ops| - 1]) then 1 else 0)
  }

  lemma StepCounts(c: Config, w: World, op: Op)
    requires AllGenuine(c, w) && Possible(c, w, op)
    ensures var a, b := w.stats, Step(c, w, op).stats;
            && b.puts == a.puts + (if PutAnswered(op) then 1 else 0)
            && b.gets == a.gets + (if ReadInLoop(op) then 1 else 0)
            && b.verified == a.verified + (if ReadFinally(op) then 1 else 0)
            && b.errors == a.errors + (if CallFailed(op) then 1 else 0)
            && b.siblings == a.siblings
  {
    if Reads(op) {
      assert Genuine(c, w.states[op.bi], w.store, op.bi, op.n);
      var v: int :| w.store[c.Place(op.bi, op.n)] == c.Value(op.bi, op.n, v);
      ReadOutcome(c, w, op.bi, op.n, v, op.final);
    }
  }

  /** Over any run every operation is counted where it belongs, once. */
  lemma {:induction false} RunCounts(c: Config, ops: seq<Op>, store: Store)
    requires IsRun(c, ops, store)
    ensures var stats := After(c, ops, store).stats;
            && stats.puts == CountOps(ops, PutAnswered)
            && stats.gets == CountOps(ops, ReadInLoop)
            && stats.verified == CountOps(ops, ReadFinally)
            && stats.errors == CountOps(ops, CallFailed)
            && stats.siblings == 0
  {
    if ops != [] {
      var before := ops[..|ops| - 1];
      RunCounts(c, before, store);
      ReportedIff(c, before, store);
      StepCounts(c, After(c, before, store), ops[|ops| - 1]);
    }
  }

  /** The clock of the last answered put of the key, or of the last read of it that found another
      version than expected; none if there was neither. */
  function LastClock(c: Config, ops: seq<Op>, store: Store, bi: nat, n: nat): Option<Bytes>
    requires bi < |c.buckets|
  {
    if ops == [] then None
    else
      var before, op := ops[..|ops| - 1], ops[|ops| - 1];
      var w, earlier := After(c, before, store), LastClock(c, before, store, bi, n);
      if op.bi != bi || op.n != n || bi >= |w.states| then earlier
      else
        match op
        case PutOp(_, _, Answered(body)) => if PutVclock(body).Clock? then PutVclock(body).vclock else earlier
        case GetOp(_, _, _, false) =>
          var place := c.Place(bi, n);
          if n in w.states[bi].versions && place in w.store && w.store[place] != c.Value(bi, n, w.states[bi].versions[n])
          then Some(CLOCK) else earlier
        case _ => earlier
  }

  lemma StepElsewhere(c: Config, w: World, op: Op, bi: nat, n: nat)
    requires Possible(c, w, op) && bi < |w.states| && (op.bi != bi || op.n != n)
    ensures Step(c, w, op).states[bi].Clock(n) == w.states[bi].Clock(n)
  {
  }

  lemma PutClock(c: Config, w: World, bi: nat, n: nat, reply: PutReply)
    requires Possible(c, w, PutOp(bi, n, reply))
    ensures var clock := AfterPut(c, w, bi, n, reply).states[bi].Clock(n);
            clock == if reply.Answered? && PutVclock(reply.body).Clock? then PutVclock(reply.body).vclock else w.states[bi].Clock(n)
  {
  }

  lemma GetClock(c: Config, w: World, bi: nat, n: nat, final: bool)
    requires AllGenuine(c, w) && Possible(c, w, GetOp(bi, n, final, false))
    ensures c.Place(bi, n) in w.store
    ensures Step(c, w, GetOp(bi, n, final, false)).states[bi].Clock(n) ==
            if w.store[c.Place(bi, n)] != c.Value(bi, n, w.states[bi].versions[n]) then Some(CLOCK) else w.states[bi].Clock(n)
  {
    assert Genuine(c, w.states[bi], w.store, bi, n);
    var v: int :| w.store[c.Place(bi, n)] == c.Value(bi, n, v);
    ReadOutcome(c, w, bi, n, v, final);
    if w.store[c.Place(bi, n)] == c.Value(bi, n, w.states[bi].versions[n]) {
      SameValueSameVersion(c, bi, n, v, w.states[bi].versions[n]);
    }
  }

  /** The clock a put of a key carries is always the last one the thread has seen for it. */
  lemma {:induction false} ClockIsLatest(c: Config, ops: seq<Op>, store: Store, bi: nat, n: nat)
    requires IsRun(c, ops, store) && bi < |c.buckets|
    ensures bi < |After(c, ops, store).states| && After(c, ops, store).states[bi].Clock(n) == LastClock(c, ops, store, bi, n)
  {
    if ops != [] {
      var before, op := ops[..|ops| - 1], ops[|ops| - 1];
      var w := After(c, before, store);
      ClockIsLatest(c, before, store, bi, n);
      ReportedIff(c, before, store);
      StepGenuine(c, w, op);
      if op.bi != bi || op.n != n {
        StepElsewhere(c, w, op, bi, n);
      } else if op.PutOp? {
        PutClock(c, w, bi, n, op.reply);
      } else if Reads(op) {
        GetClock(c, w, bi, n, op.final);
      }
    }
  }

  /** Values tell buckets, keys and versions apart, and threads too while there are no more than a
      thousand buckets. */
  lemma ValuesTellKeys(c: Config, d: Config, bi: nat, n: nat, v: int, bj: nat, m: nat, u: int)
    requires c.prefix == d.prefix && c.digest == d.digest && bi < 1000 && bj < 1000
    requires c.Value(bi, n, v) == d.Value(bj, m, u)
    ensures c.tid == d.tid && bi == bj && n == m && v == u
  {
    ValuesDiffer(c.digest, c.prefix, c.tid * 1000 + bi, n, v, c.valueSize, d.tid * 1000 + bj, m, u, d.valueSize);
  }
}
