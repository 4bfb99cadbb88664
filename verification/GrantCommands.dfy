/** Grant targets, permission tokens and the riak-admin commands built from them
    (internal/riak/executor.go), against a Riak that holds (type, bucket, token) triples. */
module GrantCommands {
  import opened Text
  import opened GrantTable

  /** One grant of a RiakUser spec. */
  datatype Grant = Grant(resource: string, bucketName: string, permission: string)

  /** What identifies a batch: the raw resource and bucket of the spec. */
  datatype Target = Target(resource: string, bucket: string)

  /** One permission a user holds: on a bucket type, a bucket ("*" for all), for a token. */
  type Held = (string, string, string)

  const ANY := "any"
  const STAR := "*"

  // ---------- executor.go ----------

  const GET := "riak_kv.get"
  const PUT := "riak_kv.put"
  const DELETE := "riak_kv.delete"
  const LIST_KEYS := "riak_kv.list_keys"
  const LIST_BUCKETS := "riak_kv.list_buckets"

  /** riakKVPermissions: the comma separated tokens of a CRD permission; others pass through. */
  function KvPermissions(permission: string): string {
    if permission == "read" then GET
    else if permission == "write" then PUT
    else if permission == "delete" then DELETE
    else if permission == "list" then LIST_KEYS + [','] + LIST_BUCKETS
    else if permission == "admin" then
      GET + [','] + (PUT + [','] + (DELETE + [','] + (LIST_KEYS + [','] + LIST_BUCKETS)))
    else permission
  }

  /** The `on ...` words of a command; None is the rejected resource or empty bucket. */
  function GrantTarget(resource: string, bucket: string): Option<seq<string>> {
    if resource == ANY then Some([ANY])
    else if resource == "bucket" then
      var target := Fields(bucket);
      if target == [] then None else Some(target)
    else None
  }

  function GrantKey(resource: string, bucket: string): Option<string> {
    match GrantTarget(resource, bucket)
    case None => None
    case Some(target) =>
      if target == [] then None
      else if target[0] == ANY then Some("* *")
      else if |target| == 1 then Some(target[0] + " *")
      else Some(target[0] + " " + target[1])
  }

  /** The tokens a list of permissions stands for, repeats included. */
  function AllTokens(permissions: seq<string>): seq<string> {
    if permissions == [] then []
    else AllTokens(permissions[..|permissions| - 1])
         + Split(KvPermissions(permissions[|permissions| - 1]), ',')
  }

  /** Each element once, where it is first seen. */
  function FirstSeen<T(==)>(items: seq<T>): seq<T> {
    if items == [] then []
    else
      var before := FirstSeen(items[..|items| - 1]);
      var last := items[|items| - 1];
      if last in before then before else before + [last]
  }

  lemma {:induction false} FirstSeenMembers<T>(items: seq<T>, x: T)
    ensures x in FirstSeen(items) <==> x in items
  {
    if items != [] {
      FirstSeenMembers(items[..|items| - 1], x);
      assert items == items[..|items| - 1] + [items[|items| - 1]];
    }
  }

  /** FirstSeen keeps the elements, drops the repeats, and orders by first occurrence. */
  lemma {:induction false} FirstSeenLaws<T>(items: seq<T>)
    ensures forall x :: x in FirstSeen(items) <==> x in items
    ensures forall i, j :: 0 <= i < j < |FirstSeen(items)| ==> FirstSeen(items)[i] != FirstSeen(items)[j]
    ensures forall i, j :: 0 <= i < j < |FirstSeen(items)| ==>
              exists k :: 0 <= k < |items| && items[k] == FirstSeen(items)[i] && FirstSeen(items)[j] !in items[..k]
  {
    if items != [] {
      var n := |items| - 1;
      var before := items[..n];
      FirstSeenLaws(before);
      assert items == before + [items[n]];
      forall x ensures x in FirstSeen(items) <==> x in items {
        FirstSeenMembers(items, x);
      }
      forall i, j | 0 <= i < j < |FirstSeen(items)|
        ensures exists k :: 0 <= k < |items| && items[k] == FirstSeen(items)[i] && FirstSeen(items)[j] !in items[..k]
      {
        if j < |FirstSeen(before)| {
          var k :| 0 <= k < |before| && before[k] == FirstSeen(before)[i] && FirstSeen(before)[j] !in before[..k];
          assert items[..k] == before[..k];
        } else {
          var y := FirstSeen(before)[i];
          FirstSeenMembers(before, y);
          var k :| 0 <= k < |before| && before[k] == y;
          assert forall x :: x in items[..k] ==> x in before;
        }
      }
    }
  }

  lemma FirstSeenSnoc<T>(items: seq<T>, x: T)
    ensures FirstSeen(items + [x]) == if x in FirstSeen(items) then FirstSeen(items) else FirstSeen(items) + [x]
  {
    assert (items + [x])[..|items|] == items;
  }

  /** No token holds a comma, whatever the permissions. */
  lemma {:induction false} TokensHoldNoComma(permissions: seq<string>)
    ensures forall i :: 0 <= i < |AllTokens(permissions)| ==> ',' !in AllTokens(permissions)[i]
  {
    if permissions != [] {
      var n := |permissions| - 1;
      TokensHoldNoComma(permissions[..n]);
      SplitParts(KvPermissions(permissions[n]), ',');
    }
  }

  lemma AllTokensSnoc(permissions: seq<string>, i: nat)
    requires i < |permissions|
    ensures AllTokens(permissions[..i + 1]) == AllTokens(permissions[..i]) + Split(KvPermissions(permissions[i]), ',')
  {
    assert permissions[..i + 1][..i] == permissions[..i];
  }

  lemma TakeSnoc<T>(base: seq<T>, parts: seq<T>, j: nat)
    requires j < |parts|
    ensures base + parts[..j + 1] == base + parts[..j] + [parts[j]]
  {
  }

  /** permissionTokens: expand, then keep each token once in first-seen order. */
  method PermissionTokens(permissions: seq<string>) returns (tokens: seq<string>)
    ensures tokens == FirstSeen(AllTokens(permissions))
  {
    var seen: set<string> := {};
    tokens := [];
    for i := 0 to |permissions|
      invariant tokens == FirstSeen(AllTokens(permissions[..i]))
      invariant forall t :: t in seen <==> t in tokens
    {
      var parts := Split(KvPermissions(permissions[i]), ',');
      ghost var base := AllTokens(permissions[..i]);
      assert base + parts[..0] == base;
      for j := 0 to |parts|
        invariant tokens == FirstSeen(base + parts[..j])
        invariant forall t :: t in seen <==> t in tokens
      {
        FirstSeenSnoc(base + parts[..j], parts[j]);
        TakeSnoc(base, parts, j);
        if parts[j] !in seen {
          seen := seen + {parts[j]};
          tokens := tokens + [parts[j]];
        }
      }
      assert parts[..|parts|] == parts;
      AllTokensSnoc(permissions, i);
    }
    assert permissions[..|permissions|] == permissions;
  }

  function GrantArgs(tokens: seq<string>, target: seq<string>, user: string): seq<string> {
    ["security", "grant", Join(tokens, ','), "on"] + target + ["to", user]
  }

  function RevokeArgs(tokens: seq<string>, target: seq<string>, user: string): seq<string> {
    ["security", "revoke", Join(tokens, ','), "on"] + target + ["from", user]
  }

  // ---------- Riak ----------

  /** The pair Riak files the words after `on` under. */
  function RiakTarget(target: seq<string>): Option<(string, string)> {
    if target == [ANY] then Some((STAR, STAR))
    else if |target| == 1 then Some((target[0], STAR))
    else if |target| == 2 then Some((target[0], target[1]))
    else None
  }

  function Triples(key: (string, string), tokens: seq<string>): set<Held> {
    set t | t in tokens :: (key.0, key.1, t)
  }

  /** The triples a grant or revoke command of this user names. */
  function Named(args: seq<string>, verb: string, link: string, user: string): set<Held> {
    if |args| < 7 || args[0] != "security" || args[1] != verb || args[3] != "on"
       || args[|args| - 2] != link || args[|args| - 1] != user then {}
    else
      match RiakTarget(args[4..|args| - 2])
      case None => {}
      case Some(key) => Triples(key, Split(args[2], ','))
  }

  /** What Riak makes of a command: grants add, revokes remove, anything else changes nothing. */
  function Riak(held: set<Held>, args: seq<string>, user: string): set<Held> {
    held + Named(args, "grant", "to", user) - Named(args, "revoke", "from", user)
  }

  /** Riak takes one or two words after `on`; with any other number it rejects the command. */
  predicate Understood(args: seq<string>) {
    |args| >= 7 && RiakTarget(args[4..|args| - 2]).Some?
  }

  /** The triples of some tokens on the words of a target. */
  function TargetTriples(target: seq<string>, tokens: seq<string>): set<Held> {
    match RiakTarget(target)
    case None => {}
    case Some(key) => Triples(key, tokens)
  }

  /** A grant command means its tokens on its target: nothing is lost in the argument text. */
  lemma GrantMeans(held: set<Held>, tokens: seq<string>, target: seq<string>, user: string)
    requires tokens != [] && target != [] && forall i :: 0 <= i < |tokens| ==> ',' !in tokens[i]
    ensures Riak(held, GrantArgs(tokens, target, user), user) == held + TargetTriples(target, tokens)
    ensures Understood(GrantArgs(tokens, target, user)) <==> RiakTarget(target).Some?
  {
    SplitJoin(tokens, ',');
    var args := GrantArgs(tokens, target, user);
    assert args[4..|args| - 2] == target;
    assert args[1] == "grant";
    assert Named(args, "revoke", "from", user) == {};
  }

  lemma RevokeMeans(held: set<Held>, tokens: seq<string>, target: seq<string>, user: string)
    requires tokens != [] && target != [] && forall i :: 0 <= i < |tokens| ==> ',' !in tokens[i]
    ensures Riak(held, RevokeArgs(tokens, target, user), user) == held - TargetTriples(target, tokens)
    ensures Understood(RevokeArgs(tokens, target, user)) <==> RiakTarget(target).Some?
  {
    SplitJoin(tokens, ',');
    var args := RevokeArgs(tokens, target, user);
    assert args[4..|args| - 2] == target;
    assert args[1] == "revoke";
    assert Named(args, "grant", "to", user) == {};
  }

  // ---------- names ----------

  /** A type the pairs tell from `on any`. */
  predicate UsableType(s: string) { TypeName(s) && s != STAR }

  /** A bucket the pairs tell from a whole type. */
  predicate UsableBucket(s: string) { Name(s) && s != STAR }

  /** A pair Riak can hold a grant on: everything, a type, or a bucket of a type. A grant on the
      whole of a type called "any" is not among them: see RevokeAddressesEntry. */
  predicate UsableKey(typ: string, bucket: string) {
    || (typ == STAR && bucket == STAR)
    || (UsableType(typ) && (if bucket == STAR then typ != ANY else UsableBucket(bucket)))
  }

  predicate UsableHeld(held: set<Held>) {
    forall x :: x in held ==> UsableKey(x.0, x.1) && TokenName(x.2)
  }

  /** The words of a usable target name a usable pair, or are too many for Riak. */
  predicate UsableTarget(target: seq<string>) {
    || (|target| == 1 && UsableType(target[0]))
    || (|target| == 2 && UsableType(target[0]) && UsableBucket(target[1]))
    || |target| > 2
  }

  /** A spec grant whose target, if accepted, and whose tokens have usable names. */
  predicate UsableGrant(g: Grant) {
    && (match GrantTarget(g.resource, g.bucketName)
        case None => true
        case Some(target) => UsableTarget(target))
    && (forall i :: 0 <= i < |Split(KvPermissions(g.permission), ',')| ==>
          TokenName(Split(KvPermissions(g.permission), ',')[i]))
  }

  /** The pair a target of the spec is filed under. */
  function KeyOf(t: Target): Option<(string, string)> {
    match GrantTarget(t.resource, t.bucket)
    case None => None
    case Some(target) => RiakTarget(target)
  }

  lemma KeyUsable(t: Target)
    requires KeyOf(t).Some? && UsableTarget(GrantTarget(t.resource, t.bucket).value)
    ensures UsableKey(KeyOf(t).value.0, KeyOf(t).value.1)
  {
  }

  /** The key text grantKey builds is the one print-grants entries are looked up by, if and only if
      the target is not a bucket of a type called "any". */
  lemma KeyTextAgrees(t: Target)
    requires KeyOf(t).Some?
    ensures var target, key := GrantTarget(t.resource, t.bucket).value, KeyOf(t).value;
            GrantKey(t.resource, t.bucket) == Some(key.0 + " " + key.1) <==> |target| == 1 || target[0] != ANY
  {
    var target, key := GrantTarget(t.resource, t.bucket).value, KeyOf(t).value;
    var text := key.0 + " " + key.1;
    if target == [ANY] {
      assert text == "* *";
    } else if |target| == 1 {
      assert text == target[0] + " *";
    } else if target[0] == ANY {
      assert text[0] == 'a';
    }
  }

  /** The pair the token table of a reconcile files a target under, by its grantKey. */
  function TableKey(t: Target): Option<(string, string)> {
    match KeyOf(t)
    case None => None
    case Some(key) => if GrantTarget(t.resource, t.bucket).value[0] == ANY then Some((STAR, STAR)) else Some(key)
  }

  lemma TableKeyText(t: Target)
    requires KeyOf(t).Some?
    ensures var key := TableKey(t).value;
            Word(key.0) && Word(key.1) && GrantKey(t.resource, t.bucket) == Some(key.0 + " " + key.1)
  {
    var target, key := GrantTarget(t.resource, t.bucket).value, TableKey(t).value;
    FieldsAreWords(t.bucket);
    assert Word(STAR);
    if target[0] == ANY {
      assert key.0 + " " + key.1 == "* *";
    } else if |target| == 1 {
      assert key.0 + " " + key.1 == target[0] + " *";
    }
  }

  lemma UsableKeyWords(typ: string, bucket: string)
    requires UsableKey(typ, bucket)
    ensures Word(typ) && Word(bucket)
  {
    assert Word(STAR);
  }

  /** The resource and bucket the stale grants of an entry are revoked with. */
  function RevokeTarget(typ: string, bucket: string): Target {
    if typ == STAR then Target(ANY, "")
    else if bucket != STAR then Target("bucket", typ + " " + bucket)
    else Target("bucket", typ)
  }

  /** Revoking an entry addresses the very pair it was printed under, if and only if that is not a
      bucket under "*" and not the whole of a type called "any". */
  lemma RevokeAddressesEntry(typ: string, bucket: string)
    requires Word(typ) && Word(bucket)
    ensures KeyOf(RevokeTarget(typ, bucket)) == Some((typ, bucket)) <==>
            (typ == STAR ==> bucket == STAR) && (bucket == STAR ==> typ != ANY)
  {
    if typ != STAR {
      if bucket != STAR {
        FieldsTwo(typ, bucket);
      } else {
        FieldsOne(typ);
      }
    }
  }

  // ---------- what a spec denotes ----------

  /** A way to file targets under pairs: Riak's (KeyOf) or the token table's (TableKey). */
  type Filing = Target -> Option<(string, string)>

  /** The triples one spec grant asks for, under a filing. */
  function WantedAs(g: Grant, key: Filing): set<Held> {
    match key(Target(g.resource, g.bucketName))
    case None => {}
    case Some(k) => Triples(k, Split(KvPermissions(g.permission), ','))
  }

  /** The triples a spec asks for, under a filing. */
  function Asked(grants: seq<Grant>, key: Filing): set<Held> {
    if grants == [] then {}
    else Asked(grants[..|grants| - 1], key) + WantedAs(grants[|grants| - 1], key)
  }

  function Wanted(g: Grant): set<Held> { WantedAs(g, KeyOf) }

  /** The triples a spec asks for. */
  function Desired(grants: seq<Grant>): set<Held> { Asked(grants, KeyOf) }

  /** The triples the token table of a reconcile lists. */
  function Tabled(grants: seq<Grant>): set<Held> { Asked(grants, TableKey) }

  lemma {:induction false} AskedFrom(grants: seq<Grant>, key: Filing, x: Held) returns (g: Grant)
    requires x in Asked(grants, key)
    ensures g in grants && x in WantedAs(g, key)
  {
    var n := |grants| - 1;
    if x in Asked(grants[..n], key) {
      g := AskedFrom(grants[..n], key, x);
    } else {
      g := grants[n];
    }
  }

  lemma {:induction false} AskedHolds(grants: seq<Grant>, key: Filing, g: Grant, x: Held)
    requires g in grants && x in WantedAs(g, key)
    ensures x in Asked(grants, key)
  {
    var n := |grants| - 1;
    if g != grants[n] {
      AskedHolds(grants[..n], key, g, x);
    }
  }

  lemma AskedIff(grants: seq<Grant>, key: Filing, x: Held)
    ensures x in Asked(grants, key) <==> exists g :: g in grants && x in WantedAs(g, key)
  {
    if x in Asked(grants, key) {
      var g := AskedFrom(grants, key, x);
    }
    if g :| g in grants && x in WantedAs(g, key) {
      AskedHolds(grants, key, g, x);
    }
  }

  /** A spec asks for exactly what its grants ask for. */
  lemma DesiredIff(grants: seq<Grant>, x: Held)
    ensures x in Desired(grants) <==> exists g :: g in grants && x in Wanted(g)
  {
    if x in Desired(grants) {
      var g := AskedFrom(grants, KeyOf, x);
      assert x in Wanted(g);
    }
    if g :| g in grants && x in Wanted(g) {
      AskedHolds(grants, KeyOf, g, x);
    }
  }

  // ---------- what a spec denotes, in its own words ----------

  /** A token a CRD permission stands for. Any other permission is a list of tokens. */
  predicate Fits(permission: string, token: string) {
    || (token == "riak_kv.get" && permission in {"read", "admin"})
    || (token == "riak_kv.put" && permission in {"write", "admin"})
    || (token == "riak_kv.delete" && permission in {"delete", "admin"})
    || (token in {"riak_kv.list_keys", "riak_kv.list_buckets"} && permission in {"list", "admin"})
    || (permission !in {"read", "write", "delete", "list", "admin"} && token in Split(permission, ','))
  }

  lemma CommaPair(a: string, b: string)
    requires ',' !in a && ',' !in b
    ensures Split(a + [','] + b, ',') == [a, b]
  {
    SplitCons(a, ',', b);
    SplitSingle(b, ',');
  }

  lemma CommaFive(a: string, b: string, c: string, d: string, e: string)
    requires ',' !in a && ',' !in b && ',' !in c && ',' !in d && ',' !in e
    ensures Split(a + [','] + (b + [','] + (c + [','] + (d + [','] + e))), ',') == [a, b, c, d, e]
  {
    var de := d + [','] + e;
    var cde := c + [','] + de;
    CommaPair(d, e);
    SplitCons(c, ',', de);
    SplitCons(b, ',', cde);
    SplitCons(a, ',', b + [','] + cde);
  }

  lemma NoCommas()
    ensures ',' !in GET && ',' !in PUT && ',' !in DELETE && ',' !in LIST_KEYS && ',' !in LIST_BUCKETS
  {
  }

  /** The tokens of the five permissions of the CRD. */
  lemma CrdTokens(permission: string)
    ensures permission == "read" ==> Split(KvPermissions(permission), ',') == ["riak_kv.get"]
    ensures permission == "write" ==> Split(KvPermissions(permission), ',') == ["riak_kv.put"]
    ensures permission == "delete" ==> Split(KvPermissions(permission), ',') == ["riak_kv.delete"]
    ensures permission == "list" ==> Split(KvPermissions(permission), ',') == ["riak_kv.list_keys", "riak_kv.list_buckets"]
    ensures permission == "admin" ==>
              Split(KvPermissions(permission), ',') ==
              ["riak_kv.get", "riak_kv.put", "riak_kv.delete", "riak_kv.list_keys", "riak_kv.list_buckets"]
  {
    NoCommas();
    if permission == "read" || permission == "write" || permission == "delete" {
      SplitSingle(KvPermissions(permission), ',');
    } else if permission == "list" {
      CommaPair(LIST_KEYS, LIST_BUCKETS);
    } else if permission == "admin" {
      CommaFive(GET, PUT, DELETE, LIST_KEYS, LIST_BUCKETS);
    }
  }

  /** The tokens a permission expands to are those it stands for. */
  lemma TokensFit(permission: string, token: string)
    ensures token in Split(KvPermissions(permission), ',') <==> Fits(permission, token)
  {
    if permission in {"read", "write", "delete", "list", "admin"} {
      CrdTokens(permission);
      CrdTokensFit(permission, token, Split(KvPermissions(permission), ','));
    } else {
      assert KvPermissions(permission) == permission;
    }
  }

  lemma CrdTokensFit(permission: string, token: string, tokens: seq<string>)
    requires permission in {"read", "write", "delete", "list", "admin"}
    requires permission == "read" ==> tokens == ["riak_kv.get"]
    requires permission == "write" ==> tokens == ["riak_kv.put"]
    requires permission == "delete" ==> tokens == ["riak_kv.delete"]
    requires permission == "list" ==> tokens == ["riak_kv.list_keys", "riak_kv.list_buckets"]
    requires permission == "admin" ==>
               tokens == ["riak_kv.get", "riak_kv.put", "riak_kv.delete", "riak_kv.list_keys", "riak_kv.list_buckets"]
    ensures token in tokens <==> Fits(permission, token)
  {
  }

  /** A spec grant is on this type and bucket, "*" for all of them. */
  predicate On(g: Grant, typ: string, bucket: string) {
    || (g.resource == "any" && typ == "*" && bucket == "*")
    || (g.resource == "bucket" &&
        (|| (Fields(g.bucketName) == ["any"] && typ == "*" && bucket == "*")
         || (Fields(g.bucketName) == [typ] && typ != "any" && bucket == "*")
         || Fields(g.bucketName) == [typ, bucket]))
  }

  lemma KeyOfIsOn(g: Grant, typ: string, bucket: string)
    ensures KeyOf(Target(g.resource, g.bucketName)) == Some((typ, bucket)) <==> On(g, typ, bucket)
  {
    var words := Fields(g.bucketName);
    if |words| == 1 {
      assert words == [words[0]];
    } else if |words| == 2 {
      assert words == [words[0], words[1]];
    }
  }

  /** A grant asks for exactly the tokens its permission stands for, on its target. */
  lemma WantedInWords(g: Grant, x: Held)
    ensures x in Wanted(g) <==> On(g, x.0, x.1) && Fits(g.permission, x.2)
  {
    KeyOfIsOn(g, x.0, x.1);
    TokensFit(g.permission, x.2);
  }

  /** What a spec denotes, in its own words. */
  lemma DesiredInWords(grants: seq<Grant>, x: Held)
    ensures x in Desired(grants) <==> exists g :: g in grants && On(g, x.0, x.1) && Fits(g.permission, x.2)
  {
    DesiredIff(grants, x);
    if g :| g in grants && x in Wanted(g) {
      WantedInWords(g, x);
    }
    if g :| g in grants && On(g, x.0, x.1) && Fits(g.permission, x.2) {
      WantedInWords(g, x);
    }
  }

  /** A target is rejected if and only if its resource is unknown or its bucket is blank. */
  lemma RejectedIff(resource: string, bucket: string)
    ensures GrantTarget(resource, bucket).None? <==>
            (resource != "any" && resource != "bucket") || (resource == "bucket" && AllSpace(bucket))
  {
    FieldsEmptyIff(bucket);
  }

  /** A grant on a bucket of a type called "any", which grantKey takes for a grant on everything. */
  predicate OnBucketOfAny(g: Grant) {
    g.resource == "bucket" && |Fields(g.bucketName)| == 2 && Fields(g.bucketName)[0] == "any"
  }

  lemma AnyBucketWanted(g: Grant) returns (x: Held)
    requires OnBucketOfAny(g)
    ensures x in Wanted(g) && x.0 == ANY
  {
    var tokens := Split(KvPermissions(g.permission), ',');
    x := (ANY, GrantTarget(g.resource, g.bucketName).value[1], tokens[0]);
    assert tokens[0] in tokens;
  }

  lemma TableKeyIsNeverAny(t: Target)
    ensures TableKey(t).Some? ==> TableKey(t).value.0 != ANY
  {
  }

  lemma FiledAlike(g: Grant)
    ensures !OnBucketOfAny(g) ==> WantedAs(g, TableKey) == WantedAs(g, KeyOf)
  {
    var t := Target(g.resource, g.bucketName);
    if !OnBucketOfAny(g) {
      assert TableKey(t) == KeyOf(t);
    }
  }

  /** No triple on a bucket of "any" is ever in the table, so it is revoked after it was granted. */
  lemma AnyBucketIsNotTabled(grants: seq<Grant>, x: Held)
    requires x.0 == ANY
    ensures x !in Tabled(grants)
  {
    if x in Tabled(grants) {
      var g := AskedFrom(grants, TableKey, x);
      TableKeyIsNeverAny(Target(g.resource, g.bucketName));
    }
  }

  /** The state a reconcile aims at, from whatever is held, is what the spec denotes if and only if
      no grant of the spec is on a bucket of a type called "any". */
  lemma SpecHonouredIff(held: set<Held>, grants: seq<Grant>)
    ensures (held + Desired(grants)) * Tabled(grants) == Desired(grants) <==>
            forall g :: g in grants ==> !OnBucketOfAny(g)
    ensures (forall g :: g in grants ==> !OnBucketOfAny(g)) ==> Tabled(grants) == Desired(grants)
  {
    if g :| g in grants && OnBucketOfAny(g) {
      var x := AnyBucketWanted(g);
      AskedHolds(grants, KeyOf, g, x);
      AnyBucketIsNotTabled(grants, x);
    } else {
      TabledIsDesired(grants);
      assert (held + Desired(grants)) * Desired(grants) == Desired(grants);
    }
  }

  lemma {:induction false} TabledIsDesired(grants: seq<Grant>)
    requires forall g :: g in grants ==> !OnBucketOfAny(g)
    ensures Tabled(grants) == Desired(grants)
  {
    if grants != [] {
      TabledIsDesired(grants[..|grants| - 1]);
      FiledAlike(grants[|grants| - 1]);
    }
  }

  /** Grants that differ at most in the white space of their target. */
  predicate SameAsk(g: Grant, h: Grant) {
    g.resource == h.resource && g.permission == h.permission && Fields(g.bucketName) == Fields(h.bucketName)
  }

  /** Every grant of one spec is listed in the other, up to white space. */
  predicate AskedIn(a: seq<Grant>, b: seq<Grant>) {
    forall g :: g in a ==> exists h :: h in b && SameAsk(g, h)
  }

  /** Specs that list the same grants, in any order, any number of times, in any white space. */
  predicate SameAsks(a: seq<Grant>, b: seq<Grant>) {
    AskedIn(a, b) && AskedIn(b, a)
  }

  lemma SameAskMeans(g: Grant, h: Grant)
    requires SameAsk(g, h)
    ensures Wanted(g) == Wanted(h)
  {
    assert GrantTarget(g.resource, g.bucketName) == GrantTarget(h.resource, h.bucketName);
  }

  lemma AskedMeans(a: seq<Grant>, b: seq<Grant>)
    requires AskedIn(a, b)
    ensures Desired(a) <= Desired(b)
  {
    forall x | x in Desired(a) ensures x in Desired(b) {
      var g := AskedFrom(a, KeyOf, x);
      var h :| h in b && SameAsk(g, h);
      SameAskMeans(g, h);
      AskedHolds(b, KeyOf, h, x);
    }
  }

  /** The order and repetition of spec grants and the white space of targets do not matter. */
  lemma DesiredIgnoresOrder(a: seq<Grant>, b: seq<Grant>)
    requires SameAsks(a, b)
    ensures Desired(a) == Desired(b)
  {
    AskedMeans(a, b);
    AskedMeans(b, a);
  }
}
