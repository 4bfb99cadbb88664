/** The values the stress client writes and how it judges what it reads back
    (examples/stressapp/riak_stress.py, make_value and judge). */
module Values {
  import opened Text
  import opened Wire

  // ---------- numbers as bytes ----------

  const MINUS: Byte := 45
  const PLUS: Byte := 43
  const COLON: Byte := 58
  const UNDERSCORE: Byte := 95
  const LETTER_T: Byte := 116
  const LETTER_V: Byte := 118

  predicate IsDigitByte(b: Byte) { 48 <= b <= 57 }

  /** The white space Python's int() skips in bytes. */
  predicate IsBlank(b: Byte) { 9 <= b <= 13 || b == 32 }

  function Natural(n: nat): (r: Bytes)
    ensures r != [] && forall i :: 0 <= i < |r| ==> IsDigitByte(r[i])
  {
    if n < 10 then [48 + n] else Natural(n / 10) + [48 + n % 10]
  }

  /** "%d". */
  function Integer(n: int): Bytes {
    if n < 0 then [MINUS] + Natural(-n) else Natural(n)
  }

  /** Digits with single underscores between them. */
  function PyDigits(b: Bytes): Option<nat> {
    if b == [] || !IsDigitByte(b[|b| - 1]) then None
    else if |b| == 1 then Some(b[0] - 48)
    else
      var front := if b[|b| - 2] == UNDERSCORE then b[..|b| - 2] else b[..|b| - 1];
      match PyDigits(front)
      case None => None
      case Some(n) => Some(10 * n + (b[|b| - 1] - 48))
  }

  function StripLeft(b: Bytes): Bytes {
    if b != [] && IsBlank(b[0]) then StripLeft(b[1..]) else b
  }

  function StripRight(b: Bytes): Bytes {
    if b != [] && IsBlank(b[|b| - 1]) then StripRight(b[..|b| - 1]) else b
  }

  /** Python's int() of bytes; None is ValueError. */
  function PyInt(b: Bytes): Option<int> {
    var t := StripRight(StripLeft(b));
    if t == [] then None
    else if t[0] == MINUS then
      match PyDigits(t[1..])
      case None => None
      case Some(n) => var m: int := n; Some(-m)
    else
      match PyDigits(if t[0] == PLUS then t[1..] else t)
      case None => None
      case Some(n) => Some(n)
  }

  lemma {:induction false} NaturalReadBack(n: nat)
    ensures PyDigits(Natural(n)) == Some(n)
  {
    if n >= 10 {
      var b := Natural(n);
      NaturalReadBack(n / 10);
      assert b[..|b| - 1] == Natural(n / 10);
      assert IsDigitByte(Natural(n / 10)[|b| - 2]);
    }
  }

  /** int() undoes "%d" on every integer. */
  lemma IntegerReadBack(n: int)
    ensures PyInt(Integer(n)) == Some(n)
  {
    var b := Integer(n);
    var m := if n < 0 then -n else n;
    NaturalReadBack(m);
    assert IsDigitByte(Natural(m)[0]);
    assert IsDigitByte(Natural(m)[|Natural(m)| - 1]);
    assert !IsBlank(b[0]) && !IsBlank(b[|b| - 1]);
    assert StripRight(StripLeft(b)) == b;
    if n < 0 {
      assert b[1..] == Natural(m);
    }
  }

  lemma IntegersDiffer(a: int, b: int)
    requires Integer(a) == Integer(b)
    ensures a == b
  {
    IntegerReadBack(a);
    IntegerReadBack(b);
  }

  // ---------- make_value ----------

  /** What comes before the first `sep`. */
  function UpTo(b: Bytes, sep: Byte): Bytes {
    if b == [] || b[0] == sep then [] else [b[0]] + UpTo(b[1..], sep)
  }

  lemma {:induction false} UpToFirst(a: Bytes, sep: Byte, rest: Bytes)
    requires sep !in a
    ensures UpTo(a + [sep] + rest, sep) == a
  {
    if a != [] {
      assert (a + [sep] + rest)[1..] == a[1..] + [sep] + rest;
      UpToFirst(a[1..], sep, rest);
    }
  }

  function Repeat(b: Bytes, n: nat): Bytes {
    if n == 0 then [] else b + Repeat(b, n - 1)
  }

  /** The part of a value every version of a key starts with. */
  function KeyHead(prefix: Bytes, thread: nat, n: nat): Bytes {
    prefix + [LETTER_T] + Natural(thread) + [MINUS] + Natural(n) + [COLON, LETTER_V]
  }

  function VersionHead(prefix: Bytes, thread: nat, n: nat, version: int): Bytes {
    KeyHead(prefix, thread, n) + Integer(version) + [COLON]
  }

  /** make_value, for any digest of 32 bytes in place of SHA-256. */
  function MakeValue(digest: Bytes -> Bytes, prefix: Bytes, thread: nat, n: nat, version: int, size: nat): Bytes {
    var head := VersionHead(prefix, thread, n, version);
    var body := Repeat(digest(head), size / 32 + 1);
    head + Head(body, if size > |head| then size - |head| else 0)
  }

  lemma {:induction false} RepeatLength(b: Bytes, n: nat)
    ensures |Repeat(b, n)| == n * |b|
  {
    if n > 0 {
      RepeatLength(b, n - 1);
    }
  }

  /** A value is `size` bytes long unless its head alone is longer. */
  lemma ValueLength(digest: Bytes -> Bytes, prefix: Bytes, thread: nat, n: nat, version: int, size: nat)
    requires |digest(VersionHead(prefix, thread, n, version))| == 32
    ensures var head := VersionHead(prefix, thread, n, version);
            |MakeValue(digest, prefix, thread, n, version, size)| == if |head| > size then |head| else size
  {
    RepeatLength(digest(VersionHead(prefix, thread, n, version)), size / 32 + 1);
  }

  /** The text of a version can be cut out of its value. */
  lemma VersionText(digest: Bytes -> Bytes, prefix: Bytes, thread: nat, n: nat, version: int, size: nat)
    ensures var v, head := MakeValue(digest, prefix, thread, n, version, size), KeyHead(prefix, thread, n);
            head <= v && UpTo(v[|head|..], COLON) == Integer(version)
  {
    var v, head := MakeValue(digest, prefix, thread, n, version, size), KeyHead(prefix, thread, n);
    var rest := v[|VersionHead(prefix, thread, n, version)|..];
    assert v == VersionHead(prefix, thread, n, version) + rest;
    assert v == head + (Integer(version) + [COLON] + rest);
    assert v[|head|..] == Integer(version) + [COLON] + rest;
    assert COLON !in Integer(version);
    UpToFirst(Integer(version), COLON, rest);
  }

  lemma CutFirst(a: Bytes, b: Bytes, sep: Byte, s: Bytes, t: Bytes)
    requires sep !in a && sep !in b && a + [sep] + s == b + [sep] + t
    ensures a == b && s == t
  {
    UpToFirst(a, sep, s);
    UpToFirst(b, sep, t);
    assert (a + [sep] + s)[|a| + 1..] == s;
    assert (b + [sep] + t)[|a| + 1..] == t;
  }

  /** Cutting seven pieces apart from the front. */
  lemma Pieces(prefix: Bytes, th: Bytes, key: Bytes, ver: Bytes, rest: Bytes)
    ensures prefix + [116] + th + [45] + key + [58, 118] + ver + [58] + rest ==
            prefix + ([116] + (th + [45] + (key + [58] + ([118] + (ver + [58] + rest)))))
  {
    var s4 := ver + [58] + rest;
    var s2 := key + [58] + ([118] + s4);
    var start := prefix + [116];
    var front := start + th + [45] + key;
    Regroup(front + [58, 118], ver, [58], rest);
    assert front + [58, 118] + s4 == front + [58] + ([118] + s4);
    Regroup(start + th + [45], key, [58], [118] + s4);
    Regroup(start, th, [45], s2);
    Assoc(prefix, [116], th + [45] + s2);
  }

  /** A value reads "<prefix>t<thread>-<key>:v<version>:" in ASCII, and the rest. */
  lemma ValueParts(digest: Bytes -> Bytes, prefix: Bytes, thread: nat, n: nat, version: int, size: nat) returns (rest: Bytes)
    ensures MakeValue(digest, prefix, thread, n, version, size) ==
            prefix + ([116] + (Natural(thread) + [45] + (Natural(n) + [58] + ([118] + (Integer(version) + [58] + rest)))))
  {
    var head := VersionHead(prefix, thread, n, version);
    var v := MakeValue(digest, prefix, thread, n, version, size);
    rest := v[|head|..];
    assert v == head + rest;
    Pieces(prefix, Natural(thread), Natural(n), Integer(version), rest);
  }

  lemma Regroup(a: Bytes, b: Bytes, c: Bytes, d: Bytes)
    ensures a + b + c + d == a + (b + c + d)
  {
  }

  /** Under one prefix, values of different keys or different versions never coincide. */
  lemma ValuesDiffer(digest: Bytes -> Bytes, prefix: Bytes,
                     thread: nat, n: nat, version: int, size: nat,
                     thread': nat, n': nat, version': int, size': nat)
    requires MakeValue(digest, prefix, thread, n, version, size) == MakeValue(digest, prefix, thread', n', version', size')
    ensures thread == thread' && n == n' && version == version'
  {
    var r := ValueParts(digest, prefix, thread, n, version, size);
    var r' := ValueParts(digest, prefix, thread', n', version', size');
    var s4, s4' := Integer(version) + [COLON] + r, Integer(version') + [COLON] + r';
    var s3, s3' := [LETTER_V] + s4, [LETTER_V] + s4';
    var s2, s2' := Natural(n) + [COLON] + s3, Natural(n') + [COLON] + s3';
    var s1, s1' := Natural(thread) + [MINUS] + s2, Natural(thread') + [MINUS] + s2';
    SameRest(prefix, [LETTER_T] + s1, [LETTER_T] + s1');
    SameRest([LETTER_T], s1, s1');
    CutFirst(Natural(thread), Natural(thread'), MINUS, s2, s2');
    CutFirst(Natural(n), Natural(n'), COLON, s3, s3');
    SameRest([LETTER_V], s4, s4');
    CutFirst(Integer(version), Integer(version'), COLON, r, r');
    IntegersDiffer(version, version');
    IntegersDiffer(thread, thread');
    IntegersDiffer(n, n');
  }

  lemma SameRest(a: Bytes, s: Bytes, t: Bytes)
    requires a + s == a + t
    ensures s == t
  {
    assert (a + s)[|a|..] == s;
    assert (a + t)[|a|..] == t;
  }

  // ---------- judge ----------

  /** Everything about a key that a value is derived from, except its version. */
  datatype Key = Key(prefix: Bytes, thread: nat, n: nat, size: nat) {
    function Value(digest: Bytes -> Bytes, version: int): Bytes {
      MakeValue(digest, prefix, thread, n, version, size)
    }
  }

  /** The version a read value is judged to be; None is "corrupt". */
  function VersionOf(digest: Bytes -> Bytes, key: Key, v: Bytes): Option<int> {
    var head := KeyHead(key.prefix, key.thread, key.n);
    if !(head <= v) then None
    else
      match PyInt(UpTo(v[|head|..], COLON))
      case None => None
      case Some(version) => if v == key.Value(digest, version) then Some(version) else None
  }

  /** A value is judged to be a version exactly when it is that version, byte for byte. */
  lemma VersionOfIff(digest: Bytes -> Bytes, key: Key, v: Bytes, version: int)
    ensures VersionOf(digest, key, v) == Some(version) <==> v == key.Value(digest, version)
  {
    if v == key.Value(digest, version) {
      VersionText(digest, key.prefix, key.thread, key.n, version, key.size);
      IntegerReadBack(version);
    }
  }

  datatype Verdict = Ok(version: int) | Landed(version: int) | Ahead(version: int) | Stale(version: int) | Corrupt

  function Max(versions: seq<int>): int
    requires versions != []
  {
    if |versions| == 1 then versions[0]
    else
      var m, last := Max(versions[..|versions| - 1]), versions[|versions| - 1];
      if last > m then last else m
  }

  lemma {:induction false} MaxIsGreatest(versions: seq<int>)
    requires versions != []
    ensures Max(versions) in versions && forall v :: v in versions ==> v <= Max(versions)
  {
    if |versions| > 1 {
      var n := |versions| - 1;
      MaxIsGreatest(versions[..n]);
      assert versions == versions[..n] + [versions[n]];
    }
  }

  /** The verdict on a read whose values are these versions. */
  function Judged(versions: seq<int>, expected: int, uncertain: Option<int>): Verdict
    requires versions != []
  {
    if expected in versions then Ok(expected)
    else
      var top := Max(versions);
      if uncertain == Some(top) then Landed(top)
      else if top > expected then Ahead(top)
      else Stale(top)
  }

  /** The verdict depends on which versions were read, not on their order or number. */
  lemma JudgedBySet(a: seq<int>, b: seq<int>, expected: int, uncertain: Option<int>)
    requires a != [] && b != [] && forall v :: v in a <==> v in b
    ensures Judged(a, expected, uncertain) == Judged(b, expected, uncertain)
  {
    MaxIsGreatest(a);
    MaxIsGreatest(b);
  }

  /** v is the greatest of the versions. */
  predicate Greatest(versions: seq<int>, v: int) {
    v in versions && forall u :: u in versions ==> u <= v
  }

  /** The verdict, for any versions read: fine if the expected one is among them; otherwise it is
      about the greatest one, which has landed if it is the uncertain one, and else is ahead or stale
      as it is above or below the expected one. */
  lemma JudgedIff(versions: seq<int>, expected: int, uncertain: Option<int>, v: int)
    requires versions != []
    ensures var verdict := Judged(versions, expected, uncertain);
            && (verdict == Ok(v) <==> v == expected && v in versions)
            && (verdict == Landed(v) <==> expected !in versions && Greatest(versions, v) && uncertain == Some(v))
            && (verdict == Ahead(v) <==> expected !in versions && Greatest(versions, v) && uncertain != Some(v) && v > expected)
            && (verdict == Stale(v) <==> expected !in versions && Greatest(versions, v) && uncertain != Some(v) && v < expected)
            && verdict != Corrupt
  {
    MaxIsGreatest(versions);
  }

  ghost predicate SomeVersion(digest: Bytes -> Bytes, key: Key, v: Bytes) {
    exists version :: v == key.Value(digest, version)
  }

  /** Some value is no version of the key, at any integer. */
  ghost predicate HasBadValue(digest: Bytes -> Bytes, key: Key, values: seq<Bytes>) {
    exists i :: 0 <= i < |values| && !SomeVersion(digest, key, values[i])
  }

  /** What a partial reading makes of every element, if it makes something of each. */
  function Collect<V, R>(read: V -> Option<R>, values: seq<V>): (r: Option<seq<R>>)
    ensures r.Some? ==> |r.value| == |values|
  {
    if values == [] then Some([])
    else
      var n := |values| - 1;
      match (Collect(read, values[..n]), read(values[n]))
      case (Some(before), Some(x)) => Some(before + [x])
      case _ => None
  }

  lemma {:induction false} CollectFound<V, R>(read: V -> Option<R>, values: seq<V>, results: seq<R>)
    requires |results| == |values| && forall i :: 0 <= i < |values| ==> read(values[i]) == Some(results[i])
    ensures Collect(read, values) == Some(results)
  {
    if values == [] {
      assert results == [];
    } else {
      var n := |values| - 1;
      CollectFound(read, values[..n], results[..n]);
      assert results == results[..n] + [results[n]];
    }
  }

  lemma {:induction false} CollectNone<V, R>(read: V -> Option<R>, values: seq<V>)
    ensures Collect(read, values).None? <==> exists i :: 0 <= i < |values| && read(values[i]).None?
  {
    if values != [] {
      var n := |values| - 1;
      CollectNone(read, values[..n]);
      if Collect(read, values[..n]).None? {
        var i :| 0 <= i < n && read(values[..n][i]).None?;
        assert read(values[i]).None?;
      }
      if Collect(read, values).Some? {
        assert forall i :: 0 <= i < n ==> values[i] == values[..n][i];
      }
    }
  }

  lemma CollectSnoc<V, R>(read: V -> Option<R>, values: seq<V>, i: nat)
    requires i < |values|
    ensures Collect(read, values[..i + 1]) ==
            match (Collect(read, values[..i]), read(values[i]))
            case (Some(before), Some(x)) => Some(before + [x])
            case _ => None
  {
    assert values[..i + 1][..i] == values[..i];
  }

  lemma {:induction false} CollectPrefix<V, R>(read: V -> Option<R>, values: seq<V>, i: nat)
    requires i <= |values| && Collect(read, values[..i]).None?
    ensures Collect(read, values).None?
  {
    if i == |values| {
      assert values[..i] == values;
    } else {
      assert values[..|values| - 1][..i] == values[..i];
      CollectPrefix(read, values[..|values| - 1], i);
    }
  }

  function VersionReader(digest: Bytes -> Bytes, key: Key): Bytes -> Option<int> {
    v => VersionOf(digest, key, v)
  }

  /** The versions of all values read, if every one is a version. */
  function AllVersions(digest: Bytes -> Bytes, key: Key, values: seq<Bytes>): (r: Option<seq<int>>)
    ensures r.Some? ==> |r.value| == |values|
  {
    Collect(VersionReader(digest, key), values)
  }

  /** What judge makes of a read. */
  function VerdictOf(digest: Bytes -> Bytes, values: seq<Bytes>, expected: int, uncertain: Option<int>, key: Key): Verdict
    requires values != []
  {
    match AllVersions(digest, key, values)
    case None => Corrupt
    case Some(versions) => Judged(versions, expected, uncertain)
  }

  lemma BadValue(digest: Bytes -> Bytes, values: seq<Bytes>, key: Key, i: nat)
    requires i < |values| && !SomeVersion(digest, key, values[i])
    ensures AllVersions(digest, key, values).None?
  {
    SomeVersionIff(digest, key, values[i]);
    var read := VersionReader(digest, key);
    assert read(values[i]).None?;
    CollectNone(read, values);
  }

  lemma SomeBadValue(digest: Bytes -> Bytes, values: seq<Bytes>, key: Key) returns (i: nat)
    requires AllVersions(digest, key, values).None?
    ensures i < |values| && !SomeVersion(digest, key, values[i])
  {
    var read := VersionReader(digest, key);
    CollectNone(read, values);
    i :| 0 <= i < |values| && read(values[i]).None?;
    SomeVersionIff(digest, key, values[i]);
  }

  /** A read is judged corrupt exactly when some value is no version of the key at all. */
  lemma CorruptIff(digest: Bytes -> Bytes, values: seq<Bytes>, expected: int, uncertain: Option<int>, key: Key)
    requires values != []
    ensures VerdictOf(digest, values, expected, uncertain, key) == Corrupt <==> HasBadValue(digest, key, values)
  {
    BadValuesMissing(digest, key, values);
    CorruptMissing(digest, values, expected, uncertain, key);
  }

  lemma BadValuesMissing(digest: Bytes -> Bytes, key: Key, values: seq<Bytes>)
    ensures AllVersions(digest, key, values).None? <==> HasBadValue(digest, key, values)
  {
    if AllVersions(digest, key, values).None? {
      var i := SomeBadValue(digest, values, key);
    }
    if HasBadValue(digest, key, values) {
      var i :| 0 <= i < |values| && !SomeVersion(digest, key, values[i]);
      BadValue(digest, values, key, i);
    }
  }

  lemma CorruptMissing(digest: Bytes -> Bytes, values: seq<Bytes>, expected: int, uncertain: Option<int>, key: Key)
    requires values != []
    ensures VerdictOf(digest, values, expected, uncertain, key) == Corrupt <==> AllVersions(digest, key, values).None?
  {
  }

  /** Otherwise the verdict follows the versions the values are. */
  lemma VerdictFollows(digest: Bytes -> Bytes, values: seq<Bytes>, versions: seq<int>,
                       expected: int, uncertain: Option<int>, key: Key)
    requires values != [] && |versions| == |values|
    requires forall i :: 0 <= i < |values| ==> values[i] == key.Value(digest, versions[i])
    ensures VerdictOf(digest, values, expected, uncertain, key) == Judged(versions, expected, uncertain)
  {
    forall i | 0 <= i < |values| ensures VersionReader(digest, key)(values[i]) == Some(versions[i]) {
      VersionOfIff(digest, key, values[i], versions[i]);
    }
    CollectFound(VersionReader(digest, key), values, versions);
  }

  /** judge, for a read that returned something. */
  method Judge(digest: Bytes -> Bytes, values: seq<Bytes>, expected: int, uncertain: Option<int>, key: Key)
    returns (verdict: Verdict)
    requires values != []
    ensures verdict == VerdictOf(digest, values, expected, uncertain, key)
  {
    var head := KeyHead(key.prefix, key.thread, key.n);
    var seen: seq<int> := [];
    for i := 0 to |values|
      invariant AllVersions(digest, key, values[..i]) == Some(seen)
    {
      var v := values[i];
      CollectSnoc(VersionReader(digest, key), values, i);
      var version := if head <= v then PyInt(UpTo(v[|head|..], COLON)) else None;
      if version.None? || v != key.Value(digest, version.value) {
        CollectPrefix(VersionReader(digest, key), values, i + 1);
        return Corrupt;
      }
      seen := seen + [version.value];
    }
    assert values[..|values|] == values;
    if expected in seen {
      return Ok(expected);
    }
    var top := Max(seen);
    if uncertain.Some? && top == uncertain.value {
      return Landed(top);
    }
    return if top > expected then Ahead(top) else Stale(top);
  }

  lemma SomeVersionIff(digest: Bytes -> Bytes, key: Key, v: Bytes)
    ensures VersionOf(digest, key, v).Some? <==> SomeVersion(digest, key, v)
  {
    if version :| v == key.Value(digest, version) {
      VersionOfIff(digest, key, v, version);
    }
  }
}
