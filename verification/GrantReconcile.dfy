/** Making a user's Riak grants equal the spec (internal/riak/manager.go, GrantUserPermissions). */
module GrantReconcile {
  import opened Text
  import opened GrantTable
  import opened GrantCommands

  // ---------- the Riak node the commands run on ----------

  /** Some part of the change from `before` to `after` has happened. */
  predicate Partly(before: set<Held>, after: set<Held>, now: set<Held>) {
    before * after <= now <= before + after
  }

  /** The triples a list of print-grants entries stands for. */
  function Denoted(entries: seq<GrantEntry>): set<Held> {
    if entries == [] then {}
    else Denoted(entries[..|entries| - 1])
         + Triples((entries[|entries| - 1].typ, entries[|entries| - 1].bucket), entries[|entries| - 1].tokens)
  }

  lemma {:induction false} DenotedIff(entries: seq<GrantEntry>, x: Held)
    ensures x in Denoted(entries) <==> exists e :: e in entries && x in Triples((e.typ, e.bucket), e.tokens)
  {
    if entries != [] {
      var n := |entries| - 1;
      DenotedIff(entries[..n], x);
      assert entries == entries[..n] + [entries[n]];
    }
  }

  predicate Prints(reply: Reply, held: set<Held>) {
    reply.Valid() && Denoted(reply.Entries()) == held
  }

  lemma TriplePrintable(x: Held)
    requires UsableKey(x.0, x.1) && TokenName(x.2)
    ensures Printable(GrantEntry(x.0, x.1, [x.2]))
    ensures Triples((x.0, x.1), [x.2]) == {x}
  {
    assert Name(STAR);
    assert (x.0, x.1, x.2) == x;
  }

  lemma {:induction false} SomeListing(held: set<Held>) returns (entries: seq<GrantEntry>)
    requires UsableHeld(held)
    ensures Denoted(entries) == held
    ensures forall i :: 0 <= i < |entries| ==> Printable(entries[i])
    decreases |held|
  {
    if held == {} {
      entries := [];
    } else {
      var x :| x in held;
      var rest := SomeListing(held - {x});
      entries := rest + [GrantEntry(x.0, x.1, [x.2])];
      assert entries[..|rest|] == rest;
      TriplePrintable(x);
      assert Denoted(entries) == (held - {x}) + {x};
    }
  }

  lemma SomeReply(held: set<Held>) returns (reply: Reply)
    requires UsableHeld(held)
    ensures Prints(reply, held)
  {
    var entries := SomeListing(held);
    reply := EveryListIsPrintable(entries);
  }

  /** One user's grants on a Riak node, and every state they went through. */
  class RiakNode {
    const user: string
    var held: set<Held>
    ghost var trace: seq<set<Held>>

    constructor (user: string, held: set<Held>)
      ensures this.user == user && this.held == held && trace == [held]
    {
      this.user := user;
      this.held := held;
      trace := [held];
    }

    /** A riak-admin grant or revoke. A failed one may have taken effect wholly, partly or not at
        all; one Riak does not understand fails. */
    method Exec(args: seq<string>) returns (ok: bool)
      modifies this
      ensures ok ==> Understood(args)
      ensures ok ==> held == Riak(old(held), args, user)
      ensures !ok ==> Partly(old(held), Riak(old(held), args, user), held)
      ensures trace == old(trace) + [held]
    {
      var after := Riak(held, args, user);
      ok := *;
      ok := ok && Understood(args);
      if ok {
        held := after;
      } else {
        assert Partly(held, after, held);
        var now :| Partly(held, after, now);
        held := now;
      }
      trace := trace + [held];
    }

    /** `security print-grants`: any layout of any listing of what is held. */
    method PrintGrants() returns (ok: bool, out: string)
      requires UsableHeld(held)
      ensures ok ==> exists reply :: Prints(reply, held) && out == reply.Output()
    {
      ok := *;
      out := "";
      if ok {
        ghost var some := SomeReply(held);
        var reply :| Prints(reply, held);
        out := reply.Output();
      }
    }
  }

  // ---------- batching ----------

  function TargetOf(g: Grant): Target { Target(g.resource, g.bucketName) }

  function Targets(grants: seq<Grant>): seq<Target> {
    seq(|grants|, i requires 0 <= i < |grants| => TargetOf(grants[i]))
  }

  /** The permissions the spec lists for a target, in order. */
  function PermsFor(grants: seq<Grant>, t: Target): seq<string> {
    if grants == [] then []
    else
      var g := grants[|grants| - 1];
      PermsFor(grants[..|grants| - 1], t) + (if TargetOf(g) == t then [g.permission] else [])
  }

  lemma {:induction false} NoPermsElsewhere(grants: seq<Grant>, t: Target)
    ensures PermsFor(grants, t) == [] <==> t !in Targets(grants)
  {
    if grants != [] {
      var n := |grants| - 1;
      NoPermsElsewhere(grants[..n], t);
      assert Targets(grants) == Targets(grants[..n]) + [TargetOf(grants[n])];
    }
  }

  /** What the i-th grant adds to the batches. */
  lemma BatchSnoc(grants: seq<Grant>, i: nat)
    requires i < |grants|
    ensures var t, before := TargetOf(grants[i]), FirstSeen(Targets(grants[..i]));
            && FirstSeen(Targets(grants[..i + 1])) == (if t in before then before else before + [t])
            && (t !in before ==> PermsFor(grants[..i], t) == [])
            && PermsFor(grants[..i + 1], t) == PermsFor(grants[..i], t) + [grants[i].permission]
    ensures forall u :: u != TargetOf(grants[i]) ==> PermsFor(grants[..i + 1], u) == PermsFor(grants[..i], u)
  {
    var t := TargetOf(grants[i]);
    assert grants[..i + 1][..i] == grants[..i];
    assert Targets(grants[..i + 1]) == Targets(grants[..i]) + [t];
    FirstSeenSnoc(Targets(grants[..i]), t);
    FirstSeenMembers(Targets(grants[..i]), t);
    NoPermsElsewhere(grants[..i], t);
  }

  /** One batch per distinct target, in first-seen order, with all its permissions. */
  method Batches(grants: seq<Grant>) returns (order: seq<Target>, perms: map<Target, seq<string>>)
    ensures order == FirstSeen(Targets(grants))
    ensures forall t :: t in perms <==> t in order
    ensures forall t :: t in perms ==> perms[t] == PermsFor(grants, t)
  {
    order, perms := [], map[];
    for i := 0 to |grants|
      invariant order == FirstSeen(Targets(grants[..i]))
      invariant forall t :: t in perms <==> t in order
      invariant forall t :: t in perms ==> perms[t] == PermsFor(grants[..i], t)
    {
      var t := TargetOf(grants[i]);
      BatchSnoc(grants, i);
      if t !in perms {
        order := order + [t];
        perms := perms[t := []];
      }
      perms := perms[t := perms[t] + [grants[i].permission]];
    }
    assert grants[..|grants|] == grants;
  }

  /** The triples of one batch, under a filing. */
  function BatchTriples(t: Target, permissions: seq<string>, key: Filing): set<Held> {
    match key(t)
    case None => {}
    case Some(k) => Triples(k, AllTokens(permissions))
  }

  /** The triples of the first batches. */
  function Granted(grants: seq<Grant>, order: seq<Target>, key: Filing): set<Held> {
    if order == [] then {}
    else Granted(grants, order[..|order| - 1], key)
         + BatchTriples(order[|order| - 1], PermsFor(grants, order[|order| - 1]), key)
  }

  lemma {:induction false} GrantedFrom(grants: seq<Grant>, order: seq<Target>, key: Filing, x: Held) returns (t: Target)
    requires x in Granted(grants, order, key)
    ensures t in order && x in BatchTriples(t, PermsFor(grants, t), key)
  {
    var n := |order| - 1;
    if x in Granted(grants, order[..n], key) {
      t := GrantedFrom(grants, order[..n], key, x);
    } else {
      t := order[n];
    }
  }

  lemma {:induction false} GrantedHolds(grants: seq<Grant>, order: seq<Target>, key: Filing, t: Target, x: Held)
    requires t in order && x in BatchTriples(t, PermsFor(grants, t), key)
    ensures x in Granted(grants, order, key)
  {
    var n := |order| - 1;
    if t != order[n] {
      GrantedHolds(grants, order[..n], key, t, x);
    }
  }

  lemma {:induction false} BatchTriplesIff(grants: seq<Grant>, t: Target, key: Filing, x: Held)
    ensures x in BatchTriples(t, PermsFor(grants, t), key) <==>
            exists g :: g in grants && TargetOf(g) == t && x in WantedAs(g, key)
  {
    if grants != [] {
      var n := |grants| - 1;
      var g := grants[n];
      BatchTriplesIff(grants[..n], t, key, x);
      assert grants == grants[..n] + [g];
      if TargetOf(g) == t {
        var before := PermsFor(grants[..n], t);
        assert (before + [g.permission])[..|before|] == before;
        assert AllTokens(before + [g.permission]) == AllTokens(before) + Split(KvPermissions(g.permission), ',');
      } else {
        assert PermsFor(grants, t) == PermsFor(grants[..n], t);
      }
    } else {
      assert AllTokens([]) == [];
    }
  }

  /** The batches together ask for exactly what the spec asks for, under either filing. */
  lemma BatchesDenoteSpec(grants: seq<Grant>, key: Filing)
    ensures Granted(grants, FirstSeen(Targets(grants)), key) == Asked(grants, key)
  {
    var order := FirstSeen(Targets(grants));
    forall x ensures x in Granted(grants, order, key) <==> x in Asked(grants, key) {
      AskedIff(grants, key, x);
      if x in Granted(grants, order, key) {
        var t := GrantedFrom(grants, order, key, x);
        BatchTriplesIff(grants, t, key, x);
      }
      if g :| g in grants && x in WantedAs(g, key) {
        var t := TargetOf(g);
        var i :| 0 <= i < |grants| && grants[i] == g;
        assert Targets(grants)[i] == t;
        FirstSeenMembers(Targets(grants), t);
        BatchTriplesIff(grants, t, key, x);
        GrantedHolds(grants, order, key, t, x);
      }
    }
  }

  // ---------- one grant or revoke call ----------

  datatype Outcome = Done | NoMembers | BadTarget | CommandFailed

  predicate Accepted(t: Target) { GrantTarget(t.resource, t.bucket).Some? }

  /** The tokens of a batch, each once: there are some, and they survive being joined by commas. */
  lemma BatchTokens(permissions: seq<string>)
    requires permissions != []
    ensures var all := AllTokens(permissions);
            var tokens := FirstSeen(all);
            && tokens != [] && (forall x :: x in tokens <==> x in all)
            && (forall i :: 0 <= i < |tokens| ==> ',' !in tokens[i])
  {
    var all := AllTokens(permissions);
    var tokens := FirstSeen(all);
    TokensHoldNoComma(permissions);
    forall x ensures x in tokens <==> x in all { FirstSeenMembers(all, x); }
    assert all[|all| - 1] in all;
    forall i | 0 <= i < |tokens| ensures ',' !in tokens[i] { assert tokens[i] in tokens; }
  }

  /** Joining the de-duplicated tokens names the triples of the whole batch. */
  lemma BatchCommandMeans(held: set<Held>, t: Target, permissions: seq<string>, user: string)
    requires permissions != [] && Accepted(t)
    ensures var args := GrantArgs(FirstSeen(AllTokens(permissions)), GrantTarget(t.resource, t.bucket).value, user);
            && Riak(held, args, user) == held + BatchTriples(t, permissions, KeyOf)
            && (Understood(args) <==> KeyOf(t).Some?)
  {
    var all := AllTokens(permissions);
    var tokens := FirstSeen(all);
    BatchTokens(permissions);
    assert KeyOf(t).Some? ==> Triples(KeyOf(t).value, tokens) == Triples(KeyOf(t).value, all);
    GrantMeans(held, tokens, GrantTarget(t.resource, t.bucket).value, user);
  }

  /** Executor.GrantPermissions. */
  method GrantPermissions(riak: RiakNode, t: Target, permissions: seq<string>) returns (r: Outcome)
    requires permissions != []
    modifies riak
    ensures r == Done ==> KeyOf(t).Some? && riak.held == old(riak.held) + BatchTriples(t, permissions, KeyOf)
    ensures r == BadTarget <==> !Accepted(t)
    ensures r == BadTarget ==> riak.held == old(riak.held)
    ensures old(riak.held) <= riak.held <= old(riak.held) + BatchTriples(t, permissions, KeyOf)
    ensures riak.trace == old(riak.trace) + (if r == BadTarget then [] else [riak.held])
    ensures r != NoMembers
  {
    match GrantTarget(t.resource, t.bucket) {
      case None =>
        assert riak.trace + [] == riak.trace;
        return BadTarget;
      case Some(target) =>
        var tokens := PermissionTokens(permissions);
        BatchCommandMeans(riak.held, t, permissions, riak.user);
        var ok := riak.Exec(GrantArgs(tokens, target, riak.user));
        r := if ok then Done else CommandFailed;
    }
  }

  /** The triples of some tokens on a target. */
  function TokenTriples(t: Target, tokens: seq<string>): set<Held> {
    match KeyOf(t)
    case None => {}
    case Some(key) => Triples(key, tokens)
  }

  /** Executor.RevokePermissions. */
  method RevokePermissions(riak: RiakNode, t: Target, tokens: seq<string>) returns (r: Outcome)
    requires tokens != [] && forall i :: 0 <= i < |tokens| ==> ',' !in tokens[i]
    modifies riak
    ensures r == Done ==> KeyOf(t).Some? && riak.held == old(riak.held) - TokenTriples(t, tokens)
    ensures r == BadTarget <==> !Accepted(t)
    ensures r == BadTarget ==> riak.held == old(riak.held)
    ensures old(riak.held) - TokenTriples(t, tokens) <= riak.held <= old(riak.held)
    ensures riak.trace == old(riak.trace) + (if r == BadTarget then [] else [riak.held])
    ensures r != NoMembers
  {
    match GrantTarget(t.resource, t.bucket) {
      case None =>
        assert riak.trace + [] == riak.trace;
        return BadTarget;
      case Some(target) =>
        RevokeMeans(riak.held, tokens, target, riak.user);
        var ok := riak.Exec(RevokeArgs(tokens, target, riak.user));
        r := if ok then Done else CommandFailed;
    }
  }

  // ---------- the reconcile ----------

  /** Whether the spec's token table, keyed by "type bucket", lists a token. */
  predicate Listed(desired: map<string, set<string>>, key: string, token: string) {
    key in desired && token in desired[key]
  }

  /** The table says of every pair of words what the set says. */
  ghost predicate Tabulates(desired: map<string, set<string>>, granted: set<Held>) {
    forall typ, bucket, token :: Word(typ) && Word(bucket) ==>
      (Listed(desired, typ + " " + bucket, token) <==> (typ, bucket, token) in granted)
  }

  function AddTokens(desired: map<string, set<string>>, key: string, tokens: seq<string>): map<string, set<string>> {
    desired[key := (if key in desired then desired[key] else {}) + set t | t in tokens]
  }

  lemma AddTokensTabulates(desired: map<string, set<string>>, granted: set<Held>,
                           key: (string, string), tokens: seq<string>)
    requires Tabulates(desired, granted) && Word(key.0) && Word(key.1)
    ensures Tabulates(AddTokens(desired, key.0 + " " + key.1, tokens), granted + Triples(key, tokens))
  {
    var table := AddTokens(desired, key.0 + " " + key.1, tokens);
    forall typ, bucket, token | Word(typ) && Word(bucket)
      ensures Listed(table, typ + " " + bucket, token) <==> (typ, bucket, token) in granted + Triples(key, tokens)
    {
      if typ + " " + bucket == key.0 + " " + key.1 {
        PairKeyInjective(typ, bucket, key.0, key.1);
      }
    }
  }

  /** Every state recorded since `from` lies between the two bounds. */
  ghost predicate Within(trace: seq<set<Held>>, from: nat, lo: set<Held>, hi: set<Held>) {
    forall i :: from <= i < |trace| ==> lo <= trace[i] <= hi
  }

  lemma WithinSnoc(trace: seq<set<Held>>, from: nat, lo: set<Held>, hi: set<Held>, held: set<Held>)
    requires Within(trace, from, lo, hi) && lo <= held <= hi
    ensures Within(trace + [held], from, lo, hi)
  {
  }

  lemma BatchIsNotEmpty(grants: seq<Grant>, t: Target)
    requires t in FirstSeen(Targets(grants))
    ensures PermsFor(grants, t) != []
  {
    FirstSeenMembers(Targets(grants), t);
    NoPermsElsewhere(grants, t);
  }

  lemma GrantedMonotone(grants: seq<Grant>, order: seq<Target>, key: Filing, i: nat)
    requires i <= |order|
    ensures Granted(grants, order[..i], key) <= Granted(grants, order, key)
  {
    forall x | x in Granted(grants, order[..i], key) ensures x in Granted(grants, order, key) {
      var t := GrantedFrom(grants, order[..i], key, x);
      GrantedHolds(grants, order, key, t, x);
    }
  }

  /** The table the loop builds from the first batches. */
  function TableOf(grants: seq<Grant>, order: seq<Target>): map<string, set<string>> {
    if order == [] then map[]
    else
      var n := |order| - 1;
      AddBatch(TableOf(grants, order[..n]), order[n], PermsFor(grants, order[n]))
  }

  function AddBatch(table: map<string, set<string>>, t: Target, permissions: seq<string>): map<string, set<string>> {
    match GrantKey(t.resource, t.bucket)
    case None => table
    case Some(key) => AddTokens(table, key, FirstSeen(AllTokens(permissions)))
  }

  lemma AddBatchTabulates(table: map<string, set<string>>, tabled: set<Held>, t: Target, permissions: seq<string>)
    requires Tabulates(table, tabled) && KeyOf(t).Some? && permissions != []
    ensures Tabulates(AddBatch(table, t, permissions), tabled + BatchTriples(t, permissions, TableKey))
  {
    var tokens := FirstSeen(AllTokens(permissions));
    TableKeyText(t);
    BatchTokens(permissions);
    assert Triples(TableKey(t).value, tokens) == BatchTriples(t, permissions, TableKey);
    AddTokensTabulates(table, tabled, TableKey(t).value, tokens);
  }

  /** Once every batch went through, the table lists what the batches ask for. */
  lemma {:induction false} TableTabulates(grants: seq<Grant>, order: seq<Target>)
    requires AllFiled(order) && forall t :: t in order ==> PermsFor(grants, t) != []
    ensures Tabulates(TableOf(grants, order), Granted(grants, order, TableKey))
  {
    if order != [] {
      var n := |order| - 1;
      TableTabulates(grants, order[..n]);
      AddBatchTabulates(TableOf(grants, order[..n]), Granted(grants, order[..n], TableKey), order[n], PermsFor(grants, order[n]));
    }
  }

  lemma TableSnoc(grants: seq<Grant>, order: seq<Target>, i: nat)
    requires i < |order|
    ensures TableOf(grants, order[..i + 1]) == AddBatch(TableOf(grants, order[..i]), order[i], PermsFor(grants, order[i]))
  {
    assert order[..i + 1][..i] == order[..i];
  }

  /** One round of the grant loop: the command, then its tokens into the table. */
  method GrantBatch(riak: RiakNode, t: Target, permissions: seq<string>, table: map<string, set<string>>)
    returns (r: Outcome, desired: map<string, set<string>>)
    requires permissions != []
    modifies riak
    ensures r == Done ==> KeyOf(t).Some? && riak.held == old(riak.held) + BatchTriples(t, permissions, KeyOf)
    ensures r == Done ==> desired == AddBatch(table, t, permissions)
    ensures r == BadTarget <==> !Accepted(t)
    ensures old(riak.held) <= riak.held <= old(riak.held) + BatchTriples(t, permissions, KeyOf)
    ensures riak.trace == old(riak.trace) + (if r == BadTarget then [] else [riak.held])
    ensures r != NoMembers
  {
    desired := table;
    r := GrantPermissions(riak, t, permissions);
    if r == Done {
      var key := GrantKey(t.resource, t.bucket).value;
      var tokens := PermissionTokens(permissions);
      desired := AddTokens(table, key, tokens);
    }
  }

  /** One command per batch, in order, and what the batches add up to. */
  method GrantInOrder(riak: RiakNode, grants: seq<Grant>, order: seq<Target>, perms: map<Target, seq<string>>)
    returns (r: Outcome, desired: map<string, set<string>>, ghost bad: Option<Target>)
    requires forall t :: t in order ==> t in perms && perms[t] == PermsFor(grants, t) && perms[t] != []
    modifies riak
    ensures r == Done ==> riak.held == old(riak.held) + Granted(grants, order, KeyOf) && AllFiled(order)
    ensures r == Done ==> desired == TableOf(grants, order)
    ensures r == BadTarget ==> bad.Some? && bad.value in order && !Accepted(bad.value)
    ensures old(riak.held) <= riak.held <= old(riak.held) + Granted(grants, order, KeyOf)
    ensures old(riak.trace) <= riak.trace
    ensures Within(riak.trace, old(|riak.trace|), old(riak.held), old(riak.held) + Granted(grants, order, KeyOf))
    ensures r != NoMembers
  {
    desired, bad := map[], None;
    ghost var base, start, top := riak.held, riak.trace, riak.held + Granted(grants, order, KeyOf);
    assert base + {} == base;
    for i := 0 to |order|
      invariant riak.held == base + Granted(grants, order[..i], KeyOf)
      invariant desired == TableOf(grants, order[..i])
      invariant start <= riak.trace
      invariant Within(riak.trace, |start|, base, top)
      invariant AllFiled(order[..i])
    {
      ghost var trace := riak.trace;
      r, desired := GrantBatch(riak, order[i], perms[order[i]], desired);
      BatchWithin(grants, order, i, base, riak.held);
      if r == BadTarget {
        bad := Some(order[i]);
        return;
      }
      WithinSnoc(trace, |start|, base, top, riak.held);
      if r != Done {
        return;
      }
      FiledSnoc(order, i);
      GrantedSnoc(grants, order, KeyOf, i);
      TableSnoc(grants, order, i);
    }
    assert order[..|order|] == order;
    r := Done;
  }

  /** Apply every desired grant, one command per target, and tabulate what is desired. */
  method GrantAll(riak: RiakNode, grants: seq<Grant>)
    returns (r: Outcome, desired: map<string, set<string>>)
    modifies riak
    ensures r == Done ==> riak.held == old(riak.held) + Desired(grants) && Tabulates(desired, Tabled(grants))
    ensures r == BadTarget ==> exists g :: g in grants && !Accepted(TargetOf(g))
    ensures r == Done ==> forall g :: g in grants ==> KeyOf(TargetOf(g)).Some?
    ensures old(riak.held) <= riak.held <= old(riak.held) + Desired(grants)
    ensures old(riak.trace) <= riak.trace
    ensures Within(riak.trace, old(|riak.trace|), old(riak.held), old(riak.held) + Desired(grants))
    ensures r != NoMembers
  {
    var order, perms := Batches(grants);
    BatchesDenoteSpec(grants, KeyOf);
    BatchesDenoteSpec(grants, TableKey);
    forall t | t in order ensures PermsFor(grants, t) != [] { BatchIsNotEmpty(grants, t); }
    ghost var bad;
    r, desired, bad := GrantInOrder(riak, grants, order, perms);
    if r == BadTarget {
      BatchHasGrant(grants, bad.value);
    } else if r == Done {
      SpecFiled(grants, order);
      TableTabulates(grants, order);
    }
  }

  predicate AllFiled(order: seq<Target>) {
    order == [] || (AllFiled(order[..|order| - 1]) && KeyOf(order[|order| - 1]).Some?)
  }

  lemma FiledSnoc(order: seq<Target>, i: nat)
    requires i < |order| && AllFiled(order[..i]) && KeyOf(order[i]).Some?
    ensures AllFiled(order[..i + 1])
  {
    assert order[..i + 1][..i] == order[..i];
  }

  lemma {:induction false} FiledMember(order: seq<Target>, t: Target)
    requires AllFiled(order) && t in order
    ensures KeyOf(t).Some?
  {
    var n := |order| - 1;
    if t != order[n] {
      FiledMember(order[..n], t);
    }
  }

  lemma GrantedSnoc(grants: seq<Grant>, order: seq<Target>, key: Filing, i: nat)
    requires i < |order|
    ensures Granted(grants, order[..i + 1], key) ==
            Granted(grants, order[..i], key) + BatchTriples(order[i], PermsFor(grants, order[i]), key)
  {
    assert order[..i + 1][..i] == order[..i];
  }

  /** A batch gives nothing beyond what all the batches give. */
  lemma BatchWithin(grants: seq<Grant>, order: seq<Target>, i: nat, base: set<Held>, held: set<Held>)
    requires i < |order|
    requires base + Granted(grants, order[..i], KeyOf) <= held
    requires held <= base + Granted(grants, order[..i], KeyOf) + BatchTriples(order[i], PermsFor(grants, order[i]), KeyOf)
    ensures base <= held <= base + Granted(grants, order, KeyOf)
  {
    GrantedSnoc(grants, order, KeyOf, i);
    GrantedMonotone(grants, order, KeyOf, i + 1);
  }

  lemma BatchHasGrant(grants: seq<Grant>, t: Target)
    requires t in FirstSeen(Targets(grants)) && !Accepted(t)
    ensures exists g :: g in grants && !Accepted(TargetOf(g))
  {
    FirstSeenMembers(Targets(grants), t);
    var i :| 0 <= i < |grants| && Targets(grants)[i] == t;
    assert grants[i] in grants;
  }

  lemma SpecFiled(grants: seq<Grant>, order: seq<Target>)
    requires order == FirstSeen(Targets(grants)) && AllFiled(order)
    ensures forall g :: g in grants ==> KeyOf(TargetOf(g)).Some?
  {
    forall g | g in grants ensures KeyOf(TargetOf(g)).Some? {
      var i :| 0 <= i < |grants| && grants[i] == g;
      assert Targets(grants)[i] == TargetOf(g);
      FirstSeenMembers(Targets(grants), TargetOf(g));
      FiledMember(order, TargetOf(g));
    }
  }

  /** The tokens of an entry the spec no longer lists, in the order they were printed. */
  function Unlisted(desired: map<string, set<string>>, key: string, tokens: seq<string>): (stale: seq<string>)
    ensures forall t :: t in stale <==> t in tokens && !Listed(desired, key, t)
  {
    if tokens == [] then []
    else
      var n := |tokens| - 1;
      Unlisted(desired, key, tokens[..n]) + (if Listed(desired, key, tokens[n]) then [] else [tokens[n]])
  }

  method StaleTokens(desired: map<string, set<string>>, key: string, tokens: seq<string>) returns (stale: seq<string>)
    ensures stale == Unlisted(desired, key, tokens)
  {
    stale := [];
    for i := 0 to |tokens|
      invariant stale == Unlisted(desired, key, tokens[..i])
    {
      assert tokens[..i + 1][..i] == tokens[..i];
      if !Listed(desired, key, tokens[i]) {
        stale := stale + [tokens[i]];
      }
    }
    assert tokens[..|tokens|] == tokens;
  }

  function EntryTriples(e: GrantEntry): set<Held> {
    Triples((e.typ, e.bucket), e.tokens)
  }

  lemma EntryUsable(entries: seq<GrantEntry>, e: GrantEntry)
    requires UsableHeld(Denoted(entries)) && e in entries && e.tokens != []
    ensures UsableKey(e.typ, e.bucket)
    ensures forall t :: t in e.tokens ==> TokenName(t)
  {
    forall t | t in e.tokens ensures UsableKey(e.typ, e.bucket) && TokenName(t) {
      var x := (e.typ, e.bucket, t);
      assert x in EntryTriples(e);
      DenotedIff(entries, x);
    }
    assert e.tokens[0] in e.tokens;
  }

  /** What is revoked for an entry is its part outside the spec. */
  lemma StaleIsOutside(e: GrantEntry, desired: map<string, set<string>>, want: set<Held>, stale: seq<string>)
    requires Tabulates(desired, want) && UsableKey(e.typ, e.bucket)
    requires stale == Unlisted(desired, e.typ + " " + e.bucket, e.tokens)
    ensures Triples((e.typ, e.bucket), stale) == EntryTriples(e) - want
  {
    UsableKeyWords(e.typ, e.bucket);
    forall t | t in e.tokens
      ensures t in stale <==> (e.typ, e.bucket, t) !in want
    {
      assert Listed(desired, e.typ + " " + e.bucket, t) <==> (e.typ, e.bucket, t) in want;
    }
  }

  lemma DenotedSnoc(entries: seq<GrantEntry>, i: nat)
    requires i < |entries|
    ensures Denoted(entries[..i + 1]) == Denoted(entries[..i]) + EntryTriples(entries[i])
  {
    assert entries[..i + 1][..i] == entries[..i];
  }

  /** One round of the revoke loop. */
  method RevokeEntry(riak: RiakNode, e: GrantEntry, desired: map<string, set<string>>, ghost want: set<Held>)
    returns (ok: bool)
    requires Tabulates(desired, want)
    requires e.tokens != [] ==> UsableKey(e.typ, e.bucket)
    requires forall t :: t in e.tokens ==> TokenName(t)
    modifies riak
    ensures ok ==> riak.held == old(riak.held) - (EntryTriples(e) - want)
    ensures old(riak.held) - (EntryTriples(e) - want) <= riak.held <= old(riak.held)
    ensures riak.trace == old(riak.trace) || riak.trace == old(riak.trace) + [riak.held]
  {
    var stale := StaleTokens(desired, e.typ + " " + e.bucket, e.tokens);
    if e.tokens != [] {
      StaleIsOutside(e, desired, want, stale);
    }
    ok := true;
    if stale == [] {
      assert EntryTriples(e) - want == {};
      return;
    }
    assert stale[0] in stale;
    forall i | 0 <= i < |stale| ensures TokenName(stale[i]) { assert stale[i] in stale; }
    UsableKeyWords(e.typ, e.bucket);
    RevokeAddressesEntry(e.typ, e.bucket);
    var r := RevokePermissions(riak, RevokeTarget(e.typ, e.bucket), stale);
    ok := r == Done;
  }

  /** Revoke everything Riak reported that the spec does not list. */
  method RevokeStale(riak: RiakNode, entries: seq<GrantEntry>, desired: map<string, set<string>>, ghost want: set<Held>)
    returns (ok: bool)
    requires Tabulates(desired, want) && Denoted(entries) == riak.held && UsableHeld(riak.held)
    modifies riak
    ensures ok ==> riak.held == old(riak.held) * want
    ensures old(riak.held) * want <= riak.held <= old(riak.held)
    ensures old(riak.trace) <= riak.trace
    ensures Within(riak.trace, old(|riak.trace|), old(riak.held) * want, old(riak.held))
  {
    ghost var top, start := riak.held, riak.trace;
    for i := 0 to |entries|
      invariant riak.held == top - (Denoted(entries[..i]) - want)
      invariant start <= riak.trace
      invariant Within(riak.trace, |start|, top * want, top)
    {
      if entries[i].tokens != [] {
        EntryUsable(entries, entries[i]);
      }
      DenotedSnoc(entries, i);
      ghost var trace := riak.trace;
      ok := RevokeEntry(riak, entries[i], desired, want);
      WithinSnoc(trace, |start|, top * want, top, riak.held);
      if !ok {
        return;
      }
    }
    assert entries[..|entries|] == entries;
    ok := true;
  }

  lemma DesiredUsable(grants: seq<Grant>)
    requires forall g :: g in grants ==> UsableGrant(g)
    ensures UsableHeld(Desired(grants))
  {
    forall x | x in Desired(grants) ensures UsableKey(x.0, x.1) && TokenName(x.2) {
      DesiredIff(grants, x);
      var g :| g in grants && x in Wanted(g);
      assert UsableGrant(g);
      KeyUsable(TargetOf(g));
    }
  }

  /** The resource is unknown, or the bucket blank. */
  predicate Rejected(g: Grant) {
    (g.resource != "any" && g.resource != "bucket") || (g.resource == "bucket" && AllSpace(g.bucketName))
  }

  /** On everything, a type, or a bucket of a type. */
  predicate Proper(g: Grant) {
    g.resource == "any" || (g.resource == "bucket" && 1 <= |Fields(g.bucketName)| <= 2)
  }

  lemma TargetsInWords(g: Grant)
    ensures !Accepted(TargetOf(g)) <==> Rejected(g)
    ensures KeyOf(TargetOf(g)).Some? <==> Proper(g)
  {
    RejectedIff(g.resource, g.bucketName);
    FieldsEmptyIff(g.bucketName);
  }

  lemma SpecInWords(grants: seq<Grant>)
    ensures (exists g :: g in grants && !Accepted(TargetOf(g))) ==> exists g :: g in grants && Rejected(g)
    ensures (forall g :: g in grants ==> KeyOf(TargetOf(g)).Some?) ==> forall g :: g in grants ==> Proper(g)
    ensures forall x :: x in Desired(grants) <==> exists g :: g in grants && On(g, x.0, x.1) && Fits(g.permission, x.2)
  {
    forall g | g in grants
      ensures !Accepted(TargetOf(g)) <==> Rejected(g)
      ensures KeyOf(TargetOf(g)).Some? <==> Proper(g)
    {
      TargetsInWords(g);
    }
    forall x ensures x in Desired(grants) <==> exists g :: g in grants && On(g, x.0, x.1) && Fits(g.permission, x.2) {
      DesiredInWords(grants, x);
    }
  }

  /** Manager.GrantUserPermissions. A run that ends well leaves what was held or is desired and is in
      the token table: exactly what the spec denotes, if and only if no grant is on a bucket of a type
      called "any". At no point of any run is access dropped that was held and is wanted and tabled, or
      access given that was neither held nor wanted. */
  method GrantUserPermissions(riak: RiakNode, members: seq<string>, grants: seq<Grant>) returns (r: Outcome)
    requires UsableHeld(riak.held)
    requires forall g :: g in grants ==> UsableGrant(g)
    modifies riak
    ensures r == Done ==> riak.held == (old(riak.held) + Desired(grants)) * Tabled(grants)
    ensures r == Done ==> (riak.held == Desired(grants) <==> forall g :: g in grants ==> !OnBucketOfAny(g))
    ensures r == Done && (forall g :: g in grants ==> !OnBucketOfAny(g)) ==>
              forall x :: x in riak.held <==> exists g :: g in grants && On(g, x.0, x.1) && Fits(g.permission, x.2)
    ensures r == Done ==> members != [] && forall g :: g in grants ==> Proper(g)
    ensures r == NoMembers <==> members == []
    ensures r == NoMembers ==> riak.held == old(riak.held)
    ensures r == BadTarget ==> exists g :: g in grants && Rejected(g)
    ensures old(riak.trace) <= riak.trace
    ensures Within(riak.trace, old(|riak.trace|), old(riak.held) * Desired(grants) * Tabled(grants), old(riak.held) + Desired(grants))
    ensures (forall g :: g in grants ==> !OnBucketOfAny(g)) ==>
              Within(riak.trace, old(|riak.trace|), old(riak.held) * Desired(grants), old(riak.held) + Desired(grants))
    ensures old(riak.held) * Desired(grants) * Tabled(grants) <= riak.held <= old(riak.held) + Desired(grants)
  {
    SpecHonouredIff(riak.held, grants);
    ghost var base, want, tabled := riak.held, Desired(grants), Tabled(grants);
    assert (forall g :: g in grants ==> !OnBucketOfAny(g)) ==> base * want * tabled == base * want;
    if |members| == 0 {
      return NoMembers;
    }
    var desired;
    r, desired := GrantAll(riak, grants);
    SpecInWords(grants);
    if r != Done {
      return;
    }
    DesiredUsable(grants);
    var ok, out := riak.PrintGrants();
    if !ok {
      return CommandFailed;
    }
    var entries := ParseDedicatedGrants(out);
    assert Denoted(entries) == riak.held by {
      var reply :| Prints(reply, riak.held) && out == reply.Output();
      PrintedGrantsAreReadBack(reply);
    }
    ok := RevokeStale(riak, entries, desired, tabled);
    r := if ok then Done else CommandFailed;
  }

  lemma AnyBucketFiled(t: Target, b: string)
    requires Word(b) && t == Target("bucket", ANY + " " + b)
    ensures GrantTarget(t.resource, t.bucket) == Some([ANY, b])
    ensures KeyOf(t) == Some((ANY, b)) && TableKey(t) == Some((STAR, STAR))
  {
    assert Word(ANY);
    FieldsTwo(ANY, b);
  }

  /** For instance, one grant on a bucket of a type called "any". */
  function AnyBucketSpec(b: string, permission: string): seq<Grant> {
    [Grant("bucket", ANY + " " + b, permission)]
  }

  lemma AskedOfOne(g: Grant, key: Filing)
    ensures Asked([g], key) == WantedAs(g, key)
  {
    assert [g][..0] == [];
    assert Asked([g][..0], key) == {};
  }

  lemma AnyBucketDenotes(b: string, permission: string)
    requires UsableBucket(b) && TokenName(KvPermissions(permission))
    ensures forall g :: g in AnyBucketSpec(b, permission) ==> UsableGrant(g)
    ensures Desired(AnyBucketSpec(b, permission)) == {(ANY, b, KvPermissions(permission))}
    ensures Tabled(AnyBucketSpec(b, permission)) == {(STAR, STAR, KvPermissions(permission))}
  {
    var g := AnyBucketSpec(b, permission)[0];
    AnyBucketFiled(TargetOf(g), b);
    SplitSingle(KvPermissions(permission), ',');
    assert UsableType(ANY);
    AskedOfOne(g, KeyOf);
    AskedOfOne(g, TableKey);
  }

  /** From nothing held, a run that ends well has granted the one triple that is wanted and then
      revoked it as stale: nothing is held. */
  method AnyBucketIsLost(riak: RiakNode, members: seq<string>, b: string, permission: string) returns (r: Outcome)
    requires UsableBucket(b) && TokenName(KvPermissions(permission)) && riak.held == {}
    modifies riak
    ensures r == Done ==> riak.held == {}
    ensures Desired(AnyBucketSpec(b, permission)) == {(ANY, b, KvPermissions(permission))}
  {
    AnyBucketDenotes(b, permission);
    r := GrantUserPermissions(riak, members, AnyBucketSpec(b, permission));
  }

  // ---------- batching refines granting one by one ----------

  /** Riak after granting each spec grant with a command of its own. */
  function OneByOne(held: set<Held>, grants: seq<Grant>, user: string): set<Held> {
    if grants == [] then held
    else
      var n := |grants| - 1;
      var before := OneByOne(held, grants[..n], user);
      match GrantTarget(grants[n].resource, grants[n].bucketName)
      case None => before
      case Some(target) =>
        Riak(before, GrantArgs(FirstSeen(AllTokens([grants[n].permission])), target, user), user)
  }

  /** Riak after one command per batch. */
  function Batched(held: set<Held>, grants: seq<Grant>, order: seq<Target>, user: string): set<Held> {
    if order == [] then held
    else
      var n := |order| - 1;
      var before := Batched(held, grants, order[..n], user);
      match GrantTarget(order[n].resource, order[n].bucket)
      case None => before
      case Some(target) =>
        Riak(before, GrantArgs(FirstSeen(AllTokens(PermsFor(grants, order[n]))), target, user), user)
  }

  lemma {:induction false} OneByOneMeans(held: set<Held>, grants: seq<Grant>, user: string)
    ensures OneByOne(held, grants, user) == held + Desired(grants)
  {
    if grants != [] {
      var n := |grants| - 1;
      var g := grants[n];
      OneByOneMeans(held, grants[..n], user);
      if Accepted(TargetOf(g)) {
        assert [g.permission][..0] == [];
        assert AllTokens([g.permission]) == Split(KvPermissions(g.permission), ',');
        BatchCommandMeans(held + Desired(grants[..n]), TargetOf(g), [g.permission], user);
      }
    }
  }

  lemma {:induction false} BatchedMeans(held: set<Held>, grants: seq<Grant>, order: seq<Target>, user: string)
    requires forall t :: t in order ==> PermsFor(grants, t) != []
    ensures Batched(held, grants, order, user) == held + Granted(grants, order, KeyOf)
  {
    if order != [] {
      var n := |order| - 1;
      BatchedMeans(held, grants, order[..n], user);
      if Accepted(order[n]) {
        BatchCommandMeans(held + Granted(grants, order[..n], KeyOf), order[n], PermsFor(grants, order[n]), user);
      }
    }
  }

  /** One command per distinct target leaves Riak as one command per grant does, for every spec. */
  lemma BatchingRefines(held: set<Held>, grants: seq<Grant>, user: string)
    ensures Batched(held, grants, FirstSeen(Targets(grants)), user) == OneByOne(held, grants, user)
  {
    var order := FirstSeen(Targets(grants));
    forall t | t in order ensures PermsFor(grants, t) != [] { BatchIsNotEmpty(grants, t); }
    BatchedMeans(held, grants, order, user);
    OneByOneMeans(held, grants, user);
    BatchesDenoteSpec(grants, KeyOf);
  }

  /** Batched granting does not depend on the order or repetition of the spec's grants, nor on the
      white space of their targets. */
  lemma BatchingIgnoresOrder(held: set<Held>, a: seq<Grant>, b: seq<Grant>, user: string)
    requires SameAsks(a, b)
    ensures Batched(held, a, FirstSeen(Targets(a)), user) == Batched(held, b, FirstSeen(Targets(b)), user)
    ensures Desired(a) == Desired(b)
  {
    BatchingRefines(held, a, user);
    BatchingRefines(held, b, user);
    OneByOneMeans(held, a, user);
    OneByOneMeans(held, b, user);
    DesiredIgnoresOrder(a, b);
  }
}
