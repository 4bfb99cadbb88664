/** The stress client's requests and replies (examples/stressapp/riak_stress.py), and the in-memory
    Riak that answers them (examples/stressapp/test_riak_stress.py). */
module RiakMessages {
  import opened Text
  import opened Wire

  /** "application/octet-stream". */
  const CONTENT_TYPE: Bytes := [97, 112, 112, 108, 105, 99, 97, 116, 105, 111, 110, 47, 111, 99, 116, 101, 116, 45, 115, 116, 114, 101, 97, 109]

  /** The clock the store answers with: "vc". */
  const CLOCK: Bytes := [118, 99]

  // ---------- requests ----------

  /** Python truth: absent and empty values are not sent. */
  function Truthy(data: Option<Bytes>): seq<Bytes> {
    if data.Some? && data.value != [] then [data.value] else []
  }

  function NonZero(n: Option<nat>): seq<nat> {
    if n.Some? && n.value != 0 then [n.value] else []
  }

  function Content(value: Bytes): Bytes {
    Encode(Sized(1, value)) + Encode(Sized(2, CONTENT_TYPE))
  }

  /** put_req. */
  function PutReq(btype: Bytes, bucket: Bytes, key: Bytes, value: Bytes, vclock: Option<Bytes>, pw: Option<nat>): Bytes {
    var msg := Encode(Sized(1, bucket)) + Encode(Sized(2, key));
    var msg := if Truthy(vclock) != [] then msg + Encode(Sized(3, vclock.value)) else msg;
    var msg := msg + Encode(Sized(4, Content(value)));
    var msg := if NonZero(pw) != [] then msg + Encode(Number(8, pw.value)) else msg;
    msg + Encode(Number(11, 1)) + Encode(Sized(16, btype))
  }

  /** get_req. */
  function GetReq(btype: Bytes, bucket: Bytes, key: Bytes, pr: Option<nat>): Bytes {
    var msg := Encode(Sized(1, bucket)) + Encode(Sized(2, key));
    var msg := if NonZero(pr) != [] then msg + Encode(Number(4, pr.value)) else msg;
    msg + Encode(Sized(13, btype))
  }

  /** The fields of a put request: the clock and the quorum only where they are truthy. */
  function PutFields(btype: Bytes, bucket: Bytes, key: Bytes, value: Bytes, vclock: Option<Bytes>, pw: Option<nat>): seq<Field> {
    [Sized(1, bucket)] + [Sized(2, key)] + ClockField(vclock) + [Sized(4, Content(value))]
    + QuorumField(8, pw) + [Number(11, 1)] + [Sized(16, btype)]
  }

  function GetFields(btype: Bytes, bucket: Bytes, key: Bytes, pr: Option<nat>): seq<Field> {
    [Sized(1, bucket)] + [Sized(2, key)] + QuorumField(4, pr) + [Sized(13, btype)]
  }

  function ClockField(vclock: Option<Bytes>): seq<Field> {
    if Truthy(vclock) != [] then [Sized(3, vclock.value)] else []
  }

  function QuorumField(num: nat, n: Option<nat>): seq<Field> {
    if NonZero(n) != [] then [Number(num, n.value)] else []
  }

  lemma ConcatOne<T>(x: T, bytes: T -> Bytes)
    ensures Concat([x], bytes) == bytes(x)
  {
    assert [x][1..] == [];
    assert bytes(x) + [] == bytes(x);
  }

  lemma ConcatSnoc<T>(items: seq<T>, x: T, bytes: T -> Bytes)
    ensures Concat(items + [x], bytes) == Concat(items, bytes) + bytes(x)
  {
    ConcatAppend(items, [x], bytes);
    ConcatOne(x, bytes);
  }

  lemma ConcatOptional<T>(items: seq<T>, x: seq<T>, bytes: T -> Bytes)
    requires |x| <= 1
    ensures Concat(items + x, bytes) == if x == [] then Concat(items, bytes) else Concat(items, bytes) + bytes(x[0])
  {
    if x == [] {
      assert items + x == items;
    } else {
      assert x == [x[0]];
      ConcatSnoc(items, x[0], bytes);
    }
  }

  lemma PutReqEncodes(btype: Bytes, bucket: Bytes, key: Bytes, value: Bytes, vclock: Option<Bytes>, pw: Option<nat>)
    ensures PutReq(btype, bucket, key, value, vclock, pw) == EncodeAll(PutFields(btype, bucket, key, value, vclock, pw))
  {
    var start := [Sized(1, bucket)] + [Sized(2, key)];
    var clocked := start + ClockField(vclock);
    var filled := clocked + [Sized(4, Content(value))];
    var voted := filled + QuorumField(8, pw);
    ConcatOne(Sized(1, bucket), Encode);
    ConcatSnoc([Sized(1, bucket)], Sized(2, key), Encode);
    ConcatOptional(start, ClockField(vclock), Encode);
    ConcatSnoc(clocked, Sized(4, Content(value)), Encode);
    ConcatOptional(filled, QuorumField(8, pw), Encode);
    ConcatSnoc(voted, Number(11, 1), Encode);
    ConcatSnoc(voted + [Number(11, 1)], Sized(16, btype), Encode);
  }

  lemma GetReqEncodes(btype: Bytes, bucket: Bytes, key: Bytes, pr: Option<nat>)
    ensures GetReq(btype, bucket, key, pr) == EncodeAll(GetFields(btype, bucket, key, pr))
  {
    var start := [Sized(1, bucket)] + [Sized(2, key)];
    ConcatOne(Sized(1, bucket), Encode);
    ConcatSnoc([Sized(1, bucket)], Sized(2, key), Encode);
    ConcatOptional(start, QuorumField(4, pr), Encode);
    ConcatSnoc(start + QuorumField(4, pr), Sized(13, btype), Encode);
  }

  /** The server-side view of a parsed message: the last field of each number. */
  function Dict(fields: seq<Field>): map<nat, Field> {
    if fields == [] then map[]
    else Dict(fields[..|fields| - 1])[fields[|fields| - 1].num := fields[|fields| - 1]]
  }

  lemma DictOne(f: Field)
    ensures Dict([f]) == map[f.num := f]
  {
    assert [f][..0] == [];
  }

  lemma DictSnoc(fields: seq<Field>, f: Field)
    ensures Dict(fields + [f]) == Dict(fields)[f.num := f]
  {
    assert (fields + [f])[..|fields|] == fields;
  }

  /** Nothing in the sequence is malformed: every field is a number or sized. */
  predicate Plain(fields: seq<Field>) {
    forall i :: 0 <= i < |fields| ==> fields[i].Number? || fields[i].Sized?
  }

  lemma PutReqParses(btype: Bytes, bucket: Bytes, key: Bytes, value: Bytes, vclock: Option<Bytes>, pw: Option<nat>)
    ensures Parse(PutReq(btype, bucket, key, value, vclock, pw)) ==
            Parsed(PutFields(btype, bucket, key, value, vclock, pw), false)
  {
    PutReqEncodes(btype, bucket, key, value, vclock, pw);
    assert Plain(PutFields(btype, bucket, key, value, vclock, pw));
    FieldsReadBack(PutFields(btype, bucket, key, value, vclock, pw));
  }

  /** What the server finds in a put request. */
  predicate PutDecoded(f: map<nat, Field>, btype: Bytes, bucket: Bytes, key: Bytes, content: Bytes,
                       vclock: Option<Bytes>, pw: Option<nat>)
  {
    && f.Keys >= {1, 2, 4, 11, 16}
    && f[1] == Sized(1, bucket) && f[2] == Sized(2, key) && f[4] == Sized(4, content)
    && f[11] == Number(11, 1) && f[16] == Sized(16, btype)
    && (3 in f <==> vclock.Some? && vclock.value != []) && (3 in f ==> f[3] == Sized(3, vclock.value))
    && (8 in f <==> pw.Some? && pw.value != 0) && (8 in f ==> f[8] == Number(8, pw.value))
  }

  function WithClock(f: map<nat, Field>, vclock: Option<Bytes>): map<nat, Field> {
    if Truthy(vclock) != [] then f[3 := Sized(3, vclock.value)] else f
  }

  function WithQuorum(f: map<nat, Field>, num: nat, n: Option<nat>): map<nat, Field> {
    if NonZero(n) != [] then f[num := Number(num, n.value)] else f
  }

  lemma DictClock(fields: seq<Field>, vclock: Option<Bytes>)
    ensures Dict(fields + ClockField(vclock)) == WithClock(Dict(fields), vclock)
  {
    if Truthy(vclock) != [] {
      DictSnoc(fields, Sized(3, vclock.value));
    } else {
      assert fields + [] == fields;
    }
  }

  lemma DictQuorum(fields: seq<Field>, num: nat, n: Option<nat>)
    ensures Dict(fields + QuorumField(num, n)) == WithQuorum(Dict(fields), num, n)
  {
    if NonZero(n) != [] {
      DictSnoc(fields, Number(num, n.value));
    } else {
      assert fields + [] == fields;
    }
  }

  function PutMap(btype: Bytes, bucket: Bytes, key: Bytes, content: Bytes, vclock: Option<Bytes>, pw: Option<nat>): map<nat, Field> {
    var start := map[1 := Sized(1, bucket), 2 := Sized(2, key)];
    var filled := WithClock(start, vclock)[4 := Sized(4, content)];
    WithQuorum(filled, 8, pw)[11 := Number(11, 1)][16 := Sized(16, btype)]
  }

  lemma PutDictionary(btype: Bytes, bucket: Bytes, key: Bytes, value: Bytes, vclock: Option<Bytes>, pw: Option<nat>)
    ensures Dict(PutFields(btype, bucket, key, value, vclock, pw)) == PutMap(btype, bucket, key, Content(value), vclock, pw)
  {
    var start := [Sized(1, bucket)] + [Sized(2, key)];
    var clocked := start + ClockField(vclock);
    var filled := clocked + [Sized(4, Content(value))];
    var voted := filled + QuorumField(8, pw);
    DictOne(Sized(1, bucket));
    DictSnoc([Sized(1, bucket)], Sized(2, key));
    DictClock(start, vclock);
    DictSnoc(clocked, Sized(4, Content(value)));
    DictQuorum(filled, 8, pw);
    DictSnoc(voted, Number(11, 1));
    DictSnoc(voted + [Number(11, 1)], Sized(16, btype));
  }

  lemma PutMapDecoded(btype: Bytes, bucket: Bytes, key: Bytes, content: Bytes, vclock: Option<Bytes>, pw: Option<nat>)
    ensures PutDecoded(PutMap(btype, bucket, key, content, vclock, pw), btype, bucket, key, content, vclock, pw)
  {
  }

  /** Decoding a put request recovers bucket, key, type and content, and the vector clock and
      write quorum exactly when they are truthy. */
  lemma PutReqDecodes(btype: Bytes, bucket: Bytes, key: Bytes, value: Bytes, vclock: Option<Bytes>, pw: Option<nat>)
    ensures var out := Parse(PutReq(btype, bucket, key, value, vclock, pw));
            !out.failed && PutDecoded(Dict(out.fields), btype, bucket, key, Content(value), vclock, pw)
  {
    PutReqParses(btype, bucket, key, value, vclock, pw);
    PutDictionary(btype, bucket, key, value, vclock, pw);
    PutMapDecoded(btype, bucket, key, Content(value), vclock, pw);
  }

  /** Decoding the content recovers the value. */
  lemma ContentDecodes(value: Bytes)
    ensures Parse(Content(value)) == Parsed([Sized(1, value), Sized(2, CONTENT_TYPE)], false)
    ensures 1 in Dict(Parse(Content(value)).fields) && Dict(Parse(Content(value)).fields)[1] == Sized(1, value)
  {
    var a, b := Sized(1, value), Sized(2, CONTENT_TYPE);
    ConcatOne(a, Encode);
    ConcatSnoc([a], b, Encode);
    assert [a] + [b] == [a, b];
    FieldsReadBack([a, b]);
    DictOne(a);
    DictSnoc([a], b);
  }

  /** What the server finds in a get request. */
  predicate GetDecoded(f: map<nat, Field>, btype: Bytes, bucket: Bytes, key: Bytes, pr: Option<nat>) {
    && f.Keys >= {1, 2, 13}
    && f[1] == Sized(1, bucket) && f[2] == Sized(2, key) && f[13] == Sized(13, btype)
    && (4 in f <==> pr.Some? && pr.value != 0) && (4 in f ==> f[4] == Number(4, pr.value))
  }

  /** Decoding a get request recovers bucket, key and type, and the read quorum when truthy. */
  lemma GetReqDecodes(btype: Bytes, bucket: Bytes, key: Bytes, pr: Option<nat>)
    ensures var out := Parse(GetReq(btype, bucket, key, pr));
            !out.failed && GetDecoded(Dict(out.fields), btype, bucket, key, pr)
  {
    var fields := GetFields(btype, bucket, key, pr);
    GetReqEncodes(btype, bucket, key, pr);
    GetDictionary(btype, bucket, key, pr);
    assert Plain(fields);
    FieldsReadBack(fields);
  }

  lemma GetDictionary(btype: Bytes, bucket: Bytes, key: Bytes, pr: Option<nat>)
    ensures GetDecoded(Dict(GetFields(btype, bucket, key, pr)), btype, bucket, key, pr)
  {
    var start := [Sized(1, bucket)] + [Sized(2, key)];
    DictOne(Sized(1, bucket));
    DictSnoc([Sized(1, bucket)], Sized(2, key));
    DictQuorum(start, 4, pr);
    DictSnoc(start + QuorumField(4, pr), Sized(13, btype));
  }

  // ---------- replies ----------

  /** The sibling values and vector clock of a get reply; the flag is an exception on the way. */
  datatype GetReply = GetReply(values: seq<Bytes>, vclock: Option<Bytes>, failed: bool)

  /** The values inside one content field. */
  function ValuesIn(fields: seq<Field>): seq<Bytes> {
    if fields == [] then []
    else (if fields[0].Sized? && fields[0].num == 1 then [fields[0].data] else []) + ValuesIn(fields[1..])
  }

  function ReplyStep(before: GetReply, f: Field): GetReply {
    if before.failed then before
    else if f.Sized? && f.num == 1 then
      GetReply(before.values + ValuesIn(Parse(f.data).fields), before.vclock, Parse(f.data).failed)
    else if f.Sized? && f.num == 2 then before.(vclock := Some(f.data))
    else before
  }

  function ReadReply(fields: seq<Field>): GetReply {
    if fields == [] then GetReply([], None, false)
    else ReplyStep(ReadReply(fields[..|fields| - 1]), fields[|fields| - 1])
  }

  lemma ReadReplySnoc(fields: seq<Field>, i: nat)
    requires i < |fields|
    ensures ReadReply(fields[..i + 1]) == ReplyStep(ReadReply(fields[..i]), fields[i])
  {
    assert fields[..i + 1][..i] == fields[..i];
  }

  /** parse_get. */
  function ParseGet(body: Bytes): GetReply {
    var out := Parse(body);
    var reply := ReadReply(out.fields);
    reply.(failed := reply.failed || out.failed)
  }

  lemma ValuesSplit(fields: seq<Field>, i: nat)
    requires i < |fields|
    ensures ValuesIn(fields[i..]) ==
            (if fields[i].Sized? && fields[i].num == 1 then [fields[i].data] else []) + ValuesIn(fields[i + 1..])
  {
    assert fields[i..][1..] == fields[i + 1..];
  }

  method CollectValues(fields: seq<Field>, before: seq<Bytes>) returns (values: seq<Bytes>)
    ensures values == before + ValuesIn(fields)
  {
    values := before;
    for i := 0 to |fields|
      invariant values + ValuesIn(fields[i..]) == before + ValuesIn(fields)
    {
      ValuesSplit(fields, i);
      if fields[i].num == 1 && fields[i].Sized? {
        values := values + [fields[i].data];
      }
    }
  }

  lemma {:induction false} FailureStays(fields: seq<Field>, i: nat)
    requires i <= |fields| && ReadReply(fields[..i]).failed
    ensures ReadReply(fields) == ReadReply(fields[..i])
  {
    if i == |fields| {
      assert fields[..i] == fields;
    } else {
      assert fields[..|fields| - 1][..i] == fields[..i];
      FailureStays(fields[..|fields| - 1], i);
    }
  }

  /** The body of parse_get's loop. */
  method DecodeReplyField(before: GetReply, f: Field) returns (reply: GetReply)
    requires !before.failed
    ensures reply == ReplyStep(before, f)
  {
    reply := before;
    if f.num == 1 && f.Sized? {
      var content := ParseFields(f.data);
      var values := CollectValues(content.fields, before.values);
      reply := GetReply(values, before.vclock, content.failed);
    } else if f.num == 2 && f.Sized? {
      reply := before.(vclock := Some(f.data));
    }
  }

  /** parse_get as written: one loop over the fields, one over each content. */
  method DecodeGet(body: Bytes) returns (reply: GetReply)
    ensures reply == ParseGet(body)
  {
    var out := ParseFields(body);
    reply := GetReply([], None, false);
    for i := 0 to |out.fields|
      invariant ReadReply(out.fields[..i]) == reply && !reply.failed
    {
      ReadReplySnoc(out.fields, i);
      reply := DecodeReplyField(reply, out.fields[i]);
      if reply.failed {
        FailureStays(out.fields, i + 1);
        return;
      }
    }
    assert out.fields[..|out.fields|] == out.fields;
    reply := reply.(failed := out.failed);
  }

  // ---------- the reply to a put ----------

  /** The clock a put reply carries, if any, or the exception of a parse that ends before one. */
  datatype ClockReply = Clock(vclock: Option<Bytes>) | Raised

  function FirstClock(fields: seq<Field>): Option<Bytes> {
    if fields == [] then None
    else if fields[0].Sized? && fields[0].num == 2 then Some(fields[0].data)
    else FirstClock(fields[1..])
  }

  function PutVclock(body: Bytes): ClockReply {
    var out := Parse(body);
    if FirstClock(out.fields).None? && out.failed then Raised else Clock(FirstClock(out.fields))
  }

  /** parse_put_vclock as written: it returns at the first clock, before anything after it can raise. */
  method DecodePutVclock(body: Bytes) returns (reply: ClockReply)
    ensures reply == PutVclock(body)
  {
    var out := ParseFields(body);
    for i := 0 to |out.fields|
      invariant FirstClock(out.fields) == FirstClock(out.fields[i..])
    {
      assert out.fields[i..][1..] == out.fields[i + 1..];
      if out.fields[i].Sized? && out.fields[i].num == 2 {
        return Clock(Some(out.fields[i].data));
      }
    }
    return if out.failed then Raised else Clock(None);
  }

  lemma {:induction false} FirstClockAfter(before: seq<Field>, vclock: Bytes, after: seq<Field>)
    requires forall i :: 0 <= i < |before| ==> !(before[i].Sized? && before[i].num == 2)
    ensures FirstClock(before + [Sized(2, vclock)] + after) == Some(vclock)
  {
    var all := before + [Sized(2, vclock)] + after;
    if before != [] {
      assert all[1..] == before[1..] + [Sized(2, vclock)] + after;
      FirstClockAfter(before[1..], vclock, after);
    }
  }

  /** The clock of any put reply is read back. */
  lemma PutVclockReadBack(before: seq<Field>, vclock: Bytes, after: seq<Field>)
    requires forall i :: 0 <= i < |before| ==> before[i].Valid() && !(before[i].Sized? && before[i].num == 2)
    requires forall i :: 0 <= i < |after| ==> after[i].Valid()
    ensures PutVclock(EncodeAll(before + [Sized(2, vclock)] + after)) == Clock(Some(vclock))
  {
    FieldsReadBack(before + [Sized(2, vclock)] + after);
    FirstClockAfter(before, vclock, after);
  }

  // ---------- the reply to a get, from the other side ----------

  /** One sibling as Riak sends it: the value, then any other content fields. */
  datatype Sibling = Sibling(value: Bytes, extra: seq<Field>) {
    predicate Valid() {
      forall i :: 0 <= i < |extra| ==> extra[i].Valid() && !(extra[i].Sized? && extra[i].num == 1)
    }

    function Field(): Field { Sized(1, EncodeAll([Sized(1, value)] + extra)) }
  }

  function SiblingFields(siblings: seq<Sibling>): (r: seq<Field>)
    ensures |r| == |siblings|
  {
    seq(|siblings|, i requires 0 <= i < |siblings| => siblings[i].Field())
  }

  function SiblingValues(siblings: seq<Sibling>): seq<Bytes> {
    seq(|siblings|, i requires 0 <= i < |siblings| => siblings[i].value)
  }

  /** A get reply: the siblings and, after them, the vector clock if there is one. */
  function GetResp(siblings: seq<Sibling>, vclock: Option<Bytes>): Bytes {
    EncodeAll(SiblingFields(siblings) + (if vclock.Some? then [Sized(2, vclock.value)] else []))
  }

  lemma {:induction false} NoValuesIn(fields: seq<Field>)
    requires forall i :: 0 <= i < |fields| ==> !(fields[i].Sized? && fields[i].num == 1)
    ensures ValuesIn(fields) == []
  {
    if fields != [] {
      NoValuesIn(fields[1..]);
    }
  }

  lemma SiblingReadBack(s: Sibling)
    requires s.Valid()
    ensures Parse(s.Field().data).failed == false && ValuesIn(Parse(s.Field().data).fields) == [s.value]
  {
    var fields := [Sized(1, s.value)] + s.extra;
    FieldsReadBack(fields);
    NoValuesIn(s.extra);
    assert fields[1..] == s.extra;
  }

  lemma SiblingStep(before: GetReply, s: Sibling)
    requires s.Valid() && !before.failed
    ensures ReplyStep(before, s.Field()) == before.(values := before.values + [s.value])
  {
    SiblingReadBack(s);
  }

  lemma SiblingSnoc(siblings: seq<Sibling>, n: nat)
    requires |siblings| == n + 1
    ensures SiblingFields(siblings)[..n] == SiblingFields(siblings[..n])
    ensures SiblingFields(siblings)[n] == siblings[n].Field()
    ensures SiblingValues(siblings) == SiblingValues(siblings[..n]) + [siblings[n].value]
  {
  }

  lemma ReadReplyLast(fields: seq<Field>, before: GetReply)
    requires fields != [] && ReadReply(fields[..|fields| - 1]) == before
    ensures ReadReply(fields) == ReplyStep(before, fields[|fields| - 1])
  {
  }

  lemma {:induction false} SiblingsReadBack(siblings: seq<Sibling>)
    requires forall i :: 0 <= i < |siblings| ==> siblings[i].Valid()
    ensures ReadReply(SiblingFields(siblings)) == GetReply(SiblingValues(siblings), None, false)
  {
    if siblings == [] {
      assert SiblingFields(siblings) == [] && SiblingValues(siblings) == [];
    } else {
      var n := |siblings| - 1;
      SiblingsReadBack(siblings[..n]);
      SiblingSnoc(siblings, n);
      var before := GetReply(SiblingValues(siblings[..n]), None, false);
      ReadReplyLast(SiblingFields(siblings), before);
      SiblingStep(before, siblings[n]);
    }
  }

  /** parse_get returns exactly the siblings' values, in order, and the vector clock. */
  lemma GetRespReadBack(siblings: seq<Sibling>, vclock: Option<Bytes>)
    requires forall i :: 0 <= i < |siblings| ==> siblings[i].Valid()
    ensures ParseGet(GetResp(siblings, vclock)) == GetReply(SiblingValues(siblings), vclock, false)
  {
    var some := SiblingFields(siblings);
    var fields := some + (if vclock.Some? then [Sized(2, vclock.value)] else []);
    assert forall i :: 0 <= i < |fields| ==> fields[i].Sized?;
    FieldsReadBack(fields);
    SiblingsReadBack(siblings);
    if vclock.Some? {
      assert fields[..|fields| - 1] == some;
      ReadReplyLast(fields, GetReply(SiblingValues(siblings), None, false));
    } else {
      assert fields == some;
    }
  }

  // ---------- the store ----------

  /** The value last stored under each (bucket, key). */
  type Store = map<(Bytes, Bytes), Bytes>

  /** The store after a put request, where it can be read. */
  function StorePut(store: Store, msg: Bytes): Option<Store> {
    var out := Parse(msg);
    var f := Dict(out.fields);
    if out.failed || !(f.Keys >= {1, 2, 4}) || !f[1].Sized? || !f[2].Sized? || !f[4].Sized? then None
    else
      var content := Parse(f[4].data);
      var c := Dict(content.fields);
      if content.failed || 1 !in c || !c[1].Sized? then None
      else Some(store[(f[1].data, f[2].data) := c[1].data])
  }

  /** The reply to a get request: one value and a clock, or nothing. */
  function StoreGet(store: Store, msg: Bytes): Option<Bytes> {
    var out := Parse(msg);
    var f := Dict(out.fields);
    if out.failed || !(f.Keys >= {1, 2}) || !f[1].Sized? || !f[2].Sized? then None
    else if (f[1].data, f[2].data) in store then
      Some(Encode(Sized(1, Encode(Sized(1, store[(f[1].data, f[2].data)])))) + Encode(Sized(2, CLOCK)))
    else Some([])
  }

  /** A put request stores its value under its bucket and key, and nothing else. */
  lemma PutStores(store: Store, btype: Bytes, bucket: Bytes, key: Bytes, value: Bytes, vclock: Option<Bytes>, pw: Option<nat>)
    ensures StorePut(store, PutReq(btype, bucket, key, value, vclock, pw)) == Some(store[(bucket, key) := value])
  {
    PutReqDecodes(btype, bucket, key, value, vclock, pw);
    ContentDecodes(value);
  }

  /** A get request, answered and parsed, returns what is stored under its bucket and key. */
  lemma GetReads(store: Store, btype: Bytes, bucket: Bytes, key: Bytes, pr: Option<nat>)
    ensures var reply := StoreGet(store, GetReq(btype, bucket, key, pr));
            && reply.Some?
            && ParseGet(reply.value) ==
                 if (bucket, key) in store then GetReply([store[(bucket, key)]], Some(CLOCK), false)
                 else GetReply([], None, false)
  {
    GetReqDecodes(btype, bucket, key, pr);
    if (bucket, key) in store {
      var s := Sibling(store[(bucket, key)], []);
      var a, b := Sized(1, s.value), Sized(2, CLOCK);
      assert [a] + [] == [a];
      ConcatOne(a, Encode);
      ConcatOne(s.Field(), Encode);
      ConcatSnoc([s.Field()], b, Encode);
      assert SiblingFields([s]) == [s.Field()];
      assert SiblingValues([s]) == [s.value];
      GetRespReadBack([s], Some(CLOCK));
    } else {
      assert Parse([]) == Parsed([], false);
    }
  }
}
