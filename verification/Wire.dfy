/** The stress client's protobuf wire codec (examples/stressapp/riak_stress.py), after the Protocol
    Buffers Encoding specification, sections "Base 128 Varints" and "Message Structure". */
module Wire {
  import opened Text

  type Byte = b: int | 0 <= b < 256

  type Bytes = seq<Byte>

  // ---------- varints ----------

  /** Seven bits a byte, least significant first, with the top bit set on all but the last. */
  function Varint(n: nat): (r: Bytes)
    ensures r != []
  {
    if n < 128 then [n] else [n % 128 + 128] + Varint(n / 128)
  }

  /** A varint at the front of the data and what follows it; None past the end of the data. */
  function ReadVarint(data: Bytes): (r: Option<(nat, Bytes)>)
    ensures r.Some? ==> |r.value.1| < |data|
  {
    if data == [] then None
    else if data[0] < 128 then Some((data[0], data[1..]))
    else
      match ReadVarint(data[1..])
      case None => None
      case Some((high, rest)) => Some((data[0] - 128 + 128 * high, rest))
  }

  /** Reading a written varint gives the number back and leaves the rest of the data. */
  lemma {:induction false} VarintReadBack(n: nat, rest: Bytes)
    ensures ReadVarint(Varint(n) + rest) == Some((n, rest))
  {
    var data := Varint(n) + rest;
    if n < 128 {
      assert data[1..] == rest;
    } else {
      assert data[1..] == Varint(n / 128) + rest;
      VarintReadBack(n / 128, rest);
    }
  }

  /** No shorter byte sequence reads as n: Varint is the canonical encoding. */
  lemma {:induction false} VarintShortest(data: Bytes)
    requires ReadVarint(data).Some?
    ensures |Varint(ReadVarint(data).value.0)| <= |data| - |ReadVarint(data).value.1|
  {
    if data[0] >= 128 {
      VarintShortest(data[1..]);
      var high := ReadVarint(data[1..]).value.0;
      var n := data[0] - 128 + 128 * high;
      if n >= 128 {
        assert n / 128 == high;
      }
    }
  }

  /** _varint. */
  method EncodeVarint(n: nat) returns (out: Bytes)
    ensures out == Varint(n)
  {
    out := [];
    var m := n;
    while true
      invariant out + Varint(m) == Varint(n)
      decreases m
    {
      var b := m % 128;
      if m / 128 == 0 {
        out := out + [b];
        return;
      }
      assert Varint(m) == [b + 128] + Varint(m / 128);
      out := out + [b + 128];
      m := m / 128;
    }
  }

  lemma ScaleStep(scale: nat, result: nat, low: nat, high: nat)
    ensures result + scale * (low + 128 * high) == (result + scale * low) + (scale * 128) * high
  {
    assert scale * (low + 128 * high) == scale * low + scale * (128 * high);
    assert scale * (128 * high) == (scale * 128) * high;
  }

  lemma PartBelow(scale: nat, result: nat, low: nat)
    requires result < scale && low < 128
    ensures result + scale * low < scale * 128
  {
    assert scale * low <= scale * 127;
  }

  /** With `result` read and `scale` the place value of the next byte, what is at i completes what
      began at `at`. */
  predicate Continues(data: Bytes, at: nat, i: nat, result: nat, scale: nat)
    requires at <= |data| && i <= |data|
  {
    match ReadVarint(data[i..])
    case None => ReadVarint(data[at..]).None?
    case Some((n, rest)) => ReadVarint(data[at..]) == Some((result + scale * n, rest))
  }

  lemma ContinuesStep(data: Bytes, at: nat, i: nat, result: nat, scale: nat)
    requires at <= |data| && i < |data| && data[i] >= 128 && Continues(data, at, i, result, scale)
    ensures var low: int := data[i] - 128; Continues(data, at, i + 1, result + scale * low, scale * 128)
  {
    assert data[i..][1..] == data[i + 1..];
    var high := ReadVarint(data[i + 1..]);
    if high.Some? {
      ScaleStep(scale, result, data[i] - 128, high.value.0);
    }
  }

  lemma ContinuesEnd(data: Bytes, at: nat, i: nat, result: nat, scale: nat)
    requires at <= |data| && i < |data| && data[i] < 128 && Continues(data, at, i, result, scale)
    ensures var b: int := data[i]; ReadVarint(data[at..]) == Some((result + scale * b, data[i + 1..]))
  {
    assert data[i..][1..] == data[i + 1..];
  }

  lemma ContinuesPastEnd(data: Bytes, at: nat, result: nat, scale: nat)
    requires at <= |data| && Continues(data, at, |data|, result, scale)
    ensures ReadVarint(data[at..]).None?
  {
    assert data[|data|..] == [];
  }

  /** _read_varint. The bits read so far stay below the next shift, so OR-ing the next seven
      bits in is adding them. */
  method DecodeVarint(data: Bytes, at: nat) returns (r: Option<(nat, nat)>)
    requires at <= |data|
    ensures match ReadVarint(data[at..])
            case None => r == None
            case Some((n, rest)) => r.Some? && r.value.0 == n && at < r.value.1 <= |data| && data[r.value.1..] == rest
  {
    var i: nat, scale: nat, result: nat := at, 1, 0;
    while true
      invariant at <= i <= |data|
      invariant result < scale
      invariant Continues(data, at, i, result, scale)
      decreases |data| - i
    {
      if i == |data| {
        ContinuesPastEnd(data, at, result, scale);
        return None;
      }
      var b: int := data[i];
      if b < 128 {
        ContinuesEnd(data, at, i, result, scale);
        return Some((result + scale * b, i + 1));
      }
      ContinuesStep(data, at, i, result, scale);
      var low := b - 128;
      PartBelow(scale, result, low);
      result, scale, i := result + scale * low, scale * 128, i + 1;
    }
  }

  // ---------- fields ----------

  /** One field of a message, by wire type. */
  datatype Field =
    | Number(num: nat, value: nat)     // wire type 0
    | Fixed64(num: nat, data: Bytes)   // wire type 1
    | Sized(num: nat, data: Bytes)     // wire type 2
    | Fixed32(num: nat, data: Bytes)   // wire type 5
  {
    predicate Valid() {
      (Fixed64? ==> |data| == 8) && (Fixed32? ==> |data| == 4)
    }

    function Wire(): nat {
      match this
      case Number(_, _) => 0
      case Fixed64(_, _) => 1
      case Sized(_, _) => 2
      case Fixed32(_, _) => 5
    }
  }

  function Encode(f: Field): Bytes {
    var tag := Varint(f.num * 8 + f.Wire());
    match f
    case Number(_, value) => tag + Varint(value)
    case Sized(_, data) => tag + Varint(|data|) + data
    case _ => tag + f.data
  }

  function Concat<T>(items: seq<T>, bytes: T -> Bytes): Bytes {
    if items == [] then [] else bytes(items[0]) + Concat(items[1..], bytes)
  }

  lemma {:induction false} ConcatAppend<T>(a: seq<T>, b: seq<T>, bytes: T -> Bytes)
    ensures Concat(a + b, bytes) == Concat(a, bytes) + Concat(b, bytes)
  {
    if a == [] {
      assert a + b == b;
    } else {
      assert (a + b)[1..] == a[1..] + b;
      ConcatAppend(a[1..], b, bytes);
    }
  }

  function EncodeAll(fields: seq<Field>): Bytes { Concat(fields, Encode) }

  /** What a parse yields before it ends, and whether it ends in an exception. */
  datatype Parsed = Parsed(fields: seq<Field>, failed: bool)

  /** Python's data[:n] and data[n:], which stop at the end of the data. */
  function Head(data: Bytes, n: nat): Bytes { if n <= |data| then data[..n] else data }

  function Tail(data: Bytes, n: nat): (t: Bytes)
    ensures |t| <= |data|
  {
    if n <= |data| then data[n..] else []
  }

  /** The rest of a field whose number and wire type have been read, and the data after it. A
      field cut short by the end of the data is yielded as short as it is. */
  function ParseBody(num: nat, wire: nat, rest: Bytes): (r: Option<(Field, Bytes)>)
    ensures r.Some? ==> |r.value.1| <= |rest|
  {
    if wire == 2 then
      match ReadVarint(rest)
      case None => None
      case Some((length, body)) => Some((Sized(num, Head(body, length)), Tail(body, length)))
    else if wire == 0 then
      match ReadVarint(rest)
      case None => None
      case Some((value, after)) => Some((Number(num, value), after))
    else if wire == 5 then Some((Fixed32(num, Head(rest, 4)), Tail(rest, 4)))
    else if wire == 1 then Some((Fixed64(num, Head(rest, 8)), Tail(rest, 8)))
    else None
  }

  /** One field and the data after it; None where the source raises. */
  function ParseField(data: Bytes): (r: Option<(Field, Bytes)>)
    ensures r.Some? ==> |r.value.1| < |data|
  {
    match ReadVarint(data)
    case None => None
    case Some((tag, rest)) => ParseBody(tag / 8, tag % 8, rest)
  }

  function Parse(data: Bytes): Parsed
    decreases |data|
  {
    if data == [] then Parsed([], false)
    else
      match ParseField(data)
      case None => Parsed([], true)
      case Some((f, rest)) =>
        var after := Parse(rest);
        Parsed([f] + after.fields, after.failed)
  }

  /** The branches of _parse_fields on the wire type. */
  method DecodeBody(data: Bytes, i: nat, num: nat, wire: nat) returns (r: Option<(Field, nat)>)
    requires i <= |data|
    ensures match ParseBody(num, wire, data[i..])
            case None => r == None
            case Some((f, rest)) => r.Some? && r.value.0 == f && r.value.1 >= i && Tail(data, r.value.1) == rest
  {
    if wire == 2 {
      var length := DecodeVarint(data, i);
      if length.None? {
        return None;
      }
      TailOfTail(data, length.value.1, length.value.0);
      return Some((Sized(num, Head(data[length.value.1..], length.value.0)), length.value.1 + length.value.0));
    } else if wire == 0 {
      var value := DecodeVarint(data, i);
      if value.None? {
        return None;
      }
      return Some((Number(num, value.value.0), value.value.1));
    } else if wire == 5 {
      TailOfTail(data, i, 4);
      return Some((Fixed32(num, Head(data[i..], 4)), i + 4));
    } else if wire == 1 {
      TailOfTail(data, i, 8);
      return Some((Fixed64(num, Head(data[i..], 8)), i + 8));
    }
    return None;
  }

  /** One turn of _parse_fields at position `at`. */
  method DecodeField(data: Bytes, at: nat) returns (r: Option<(Field, nat)>)
    requires at < |data|
    ensures match ParseField(data[at..])
            case None => r == None
            case Some((f, rest)) => r.Some? && r.value.0 == f && r.value.1 > at && Tail(data, r.value.1) == rest
  {
    var tag := DecodeVarint(data, at);
    if tag.None? {
      return None;
    }
    r := DecodeBody(data, tag.value.1, tag.value.0 / 8, tag.value.0 % 8);
  }

  lemma TailOfTail(data: Bytes, i: nat, n: nat)
    requires i <= |data|
    ensures Tail(data[i..], n) == Tail(data, i + n)
  {
  }

  /** _parse_fields, collected. */
  method ParseFields(data: Bytes) returns (out: Parsed)
    ensures out == Parse(data)
  {
    var fields: seq<Field> := [];
    var i := 0;
    while i < |data|
      invariant Parse(data) == Parsed(fields + Parse(Tail(data, i)).fields, Parse(Tail(data, i)).failed)
      decreases |data| - i
    {
      var r := DecodeField(data, i);
      if r.None? {
        assert fields + [] == fields;
        return Parsed(fields, true);
      }
      ParseStep(fields, data[i..]);
      fields, i := fields + [r.value.0], r.value.1;
    }
    assert fields + [] == fields;
    return Parsed(fields, false);
  }

  lemma ParseStep(fields: seq<Field>, data: Bytes)
    requires data != [] && ParseField(data).Some?
    ensures var (f, rest) := ParseField(data).value;
            && fields + Parse(data).fields == fields + [f] + Parse(rest).fields
            && Parse(data).failed == Parse(rest).failed
  {
    var (f, rest) := ParseField(data).value;
    assert fields + ([f] + Parse(rest).fields) == fields + [f] + Parse(rest).fields;
  }

  lemma TagSplits(num: nat, wire: nat)
    requires wire < 8
    ensures (num * 8 + wire) / 8 == num && (num * 8 + wire) % 8 == wire
  {
  }

  lemma Assoc(a: Bytes, b: Bytes, c: Bytes)
    ensures a + b + c == a + (b + c)
  {
  }

  lemma HeadTail(data: Bytes, rest: Bytes)
    ensures Head(data + rest, |data|) == data && Tail(data + rest, |data|) == rest
  {
  }

  lemma NumberReadBack(num: nat, value: nat, rest: Bytes)
    ensures ParseField(Varint(num * 8) + Varint(value) + rest) == Some((Number(num, value), rest))
  {
    TagSplits(num, 0);
    Assoc(Varint(num * 8), Varint(value), rest);
    VarintReadBack(num * 8, Varint(value) + rest);
    VarintReadBack(value, rest);
  }

  lemma SizedReadBack(num: nat, data: Bytes, rest: Bytes)
    ensures ParseField(Varint(num * 8 + 2) + Varint(|data|) + data + rest) == Some((Sized(num, data), rest))
  {
    var tag, size := Varint(num * 8 + 2), Varint(|data|);
    TagSplits(num, 2);
    Assoc(tag + size, data, rest);
    Assoc(tag, size, data + rest);
    VarintReadBack(num * 8 + 2, size + (data + rest));
    VarintReadBack(|data|, data + rest);
    HeadTail(data, rest);
  }

  lemma FixedReadBack(f: Field, rest: Bytes)
    requires f.Valid() && (f.Fixed32? || f.Fixed64?)
    ensures ParseField(Varint(f.num * 8 + f.Wire()) + f.data + rest) == Some((f, rest))
  {
    TagSplits(f.num, f.Wire());
    Assoc(Varint(f.num * 8 + f.Wire()), f.data, rest);
    VarintReadBack(f.num * 8 + f.Wire(), f.data + rest);
    HeadTail(f.data, rest);
  }

  /** A field in front of any data is read back, and the data after it is left. */
  lemma FieldReadBack(f: Field, rest: Bytes)
    requires f.Valid()
    ensures ParseField(Encode(f) + rest) == Some((f, rest))
  {
    match f
    case Number(num, value) => NumberReadBack(num, value, rest);
    case Sized(num, data) => SizedReadBack(num, data, rest);
    case _ => FixedReadBack(f, rest);
  }

  /** Parsing the concatenated encodings of any fields yields those fields. */
  lemma {:induction false} FieldsReadBack(fields: seq<Field>)
    requires forall i :: 0 <= i < |fields| ==> fields[i].Valid()
    ensures Parse(EncodeAll(fields)) == Parsed(fields, false)
  {
    if fields != [] {
      FieldReadBack(fields[0], EncodeAll(fields[1..]));
      FieldsReadBack(fields[1..]);
      assert Encode(fields[0]) != [];
    }
  }

  // ---------- data that is cut short or not understood ----------

  lemma ParseFront(f: Field, rest: Bytes)
    requires f.Valid()
    ensures Parse(Encode(f) + rest) == Parsed([f] + Parse(rest).fields, Parse(rest).failed)
  {
    FieldReadBack(f, rest);
    assert Encode(f) != [];
  }

  lemma Prepended(f: Field, fields: seq<Field>, more: seq<Field>)
    ensures [f] + (fields + more) == [f] + fields + more
  {
  }

  /** Whatever follows some encoded fields is parsed after them. */
  lemma {:induction false} ParseAfter(fields: seq<Field>, rest: Bytes)
    requires forall i :: 0 <= i < |fields| ==> fields[i].Valid()
    ensures Parse(EncodeAll(fields) + rest) == Parsed(fields + Parse(rest).fields, Parse(rest).failed)
  {
    if fields == [] {
      assert EncodeAll(fields) + rest == rest;
      assert [] + Parse(rest).fields == Parse(rest).fields;
    } else {
      var f, more := fields[0], fields[1..];
      Assoc(Encode(f), EncodeAll(more), rest);
      ParseFront(f, EncodeAll(more) + rest);
      ParseAfter(more, rest);
      Prepended(f, more, Parse(rest).fields);
      assert fields == [f] + more;
    }
  }

  lemma {:induction false} VarintCut(n: nat, k: nat)
    requires k < |Varint(n)|
    ensures ReadVarint(Varint(n)[..k]).None?
  {
    if n >= 128 && k > 0 {
      VarintCut(n / 128, k - 1);
      assert Varint(n)[..k][1..] == Varint(n / 128)[..k - 1];
    }
  }

  lemma TagReadBack(num: nat, wire: nat, rest: Bytes)
    requires wire < 8
    ensures ParseField(Varint(num * 8 + wire) + rest) == ParseBody(num, wire, rest)
  {
    TagSplits(num, wire);
    VarintReadBack(num * 8 + wire, rest);
  }

  lemma ParseOne(data: Bytes, f: Field)
    requires data != [] && ParseField(data) == Some((f, []))
    ensures Parse(data) == Parsed([f], false)
  {
    assert Parse([]) == Parsed([], false);
  }

  /** A length-delimited field whose data ends early is yielded as short as it is. */
  lemma ShortSized(fields: seq<Field>, num: nat, length: nat, data: Bytes)
    requires (forall i :: 0 <= i < |fields| ==> fields[i].Valid()) && |data| < length
    ensures Parse(EncodeAll(fields) + (Varint(num * 8 + 2) + (Varint(length) + data))) == Parsed(fields + [Sized(num, data)], false)
  {
    var rest := Varint(num * 8 + 2) + (Varint(length) + data);
    TagReadBack(num, 2, Varint(length) + data);
    VarintReadBack(length, data);
    ParseOne(rest, Sized(num, data));
    ParseAfter(fields, rest);
  }

  /** So is a fixed-width one. */
  lemma ShortFixed(fields: seq<Field>, num: nat, wide: bool, data: Bytes)
    requires (forall i :: 0 <= i < |fields| ==> fields[i].Valid()) && |data| < (if wide then 8 else 4)
    ensures Parse(EncodeAll(fields) + (Varint(num * 8 + (if wide then 1 else 5)) + data)) ==
            Parsed(fields + [if wide then Fixed64(num, data) else Fixed32(num, data)], false)
  {
    var wire := if wide then 1 else 5;
    var rest := Varint(num * 8 + wire) + data;
    TagReadBack(num, wire, data);
    ParseOne(rest, if wide then Fixed64(num, data) else Fixed32(num, data));
    ParseAfter(fields, rest);
  }

  /** Data that ends inside a tag, or inside the number or the length after one, raises. */
  lemma CutRaises(fields: seq<Field>, num: nat, sized: bool, n: nat, k: nat)
    requires forall i :: 0 <= i < |fields| ==> fields[i].Valid()
    ensures 0 < k < |Varint(n)| ==> Parse(EncodeAll(fields) + Varint(n)[..k]) == Parsed(fields, true)
    ensures k < |Varint(n)| ==>
              Parse(EncodeAll(fields) + (Varint(num * 8 + (if sized then 2 else 0)) + Varint(n)[..k])) == Parsed(fields, true)
  {
    assert fields + [] == fields;
    if k < |Varint(n)| {
      var cut, wire := Varint(n)[..k], if sized then 2 else 0;
      VarintCut(n, k);
      TagReadBack(num, wire, cut);
      ParseAfter(fields, cut);
      ParseAfter(fields, Varint(num * 8 + wire) + cut);
    }
  }

  /** So do the wire types the source does not know: 3, 4, 6 and 7. */
  lemma UnknownWireRaises(fields: seq<Field>, num: nat, wire: nat, rest: Bytes)
    requires (forall i :: 0 <= i < |fields| ==> fields[i].Valid()) && wire in {3, 4, 6, 7}
    ensures Parse(EncodeAll(fields) + (Varint(num * 8 + wire) + rest)) == Parsed(fields, true)
  {
    TagReadBack(num, wire, rest);
    ParseAfter(fields, Varint(num * 8 + wire) + rest);
    assert fields + [] == fields;
  }
}
