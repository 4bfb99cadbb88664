/** The string operations of Go's `strings` package that the operator's parsers and
    command builders rest on, with the round trips that hold between them. */
module Text {

  /** unicode.IsSpace. */
  predicate IsSpace(c: char) {
    || '\t' <= c <= '\r'
    || c == ' ' || c == '\U{85}' || c == '\U{A0}' || c == '\U{1680}'
    || '\U{2000}' <= c <= '\U{200A}'
    || c == '\U{2028}' || c == '\U{2029}' || c == '\U{202F}' || c == '\U{205F}' || c == '\U{3000}'
  }

  predicate AllSpace(s: string) {
    forall i :: 0 <= i < |s| ==> IsSpace(s[i])
  }

  /** White space within a line. */
  predicate Padding(s: string) { AllSpace(s) && '\n' !in s }

  /** A word: what strings.Fields can return. */
  predicate Word(s: string) {
    s != "" && forall i :: 0 <= i < |s| ==> !IsSpace(s[i])
  }

  predicate HasPrefix(s: string, prefix: string) {
    prefix <= s
  }

  predicate OccursAt(s: string, part: string, i: nat) {
    i <= |s| && part <= s[i..]
  }

  /** strings.Contains. */
  predicate Contains(s: string, part: string) {
    exists i :: 0 <= i <= |s| && OccursAt(s, part, i)
  }

  lemma ContainsItself(s: string)
    ensures Contains(s, s)
  {
    assert s[0..] == s;
    assert OccursAt(s, s, 0);
  }

  lemma ContainsFirst(s: string, part: string)
    requires part != "" && Contains(s, part)
    ensures part[0] in s
  {
    var i :| 0 <= i <= |s| && OccursAt(s, part, i);
    assert s[i] == part[0];
  }

  lemma NotContained(s: string, part: string)
    requires part != "" && part[0] !in s
    ensures !Contains(s, part)
  {
    if Contains(s, part) {
      ContainsFirst(s, part);
    }
  }

  /** unicode.ToLower, on the characters whose lower case is an ASCII letter. Every other one is
      left alone, which no comparison with ASCII text can tell. */
  function LowerChar(c: char): char {
    if 'A' <= c <= 'Z' then c - 'A' + 'a'
    else if c == '\U{130}' then 'i'
    else if c == '\U{212A}' then 'k'
    else c
  }

  /** strings.ToLower. */
  function ToLower(s: string): (r: string)
    ensures |r| == |s|
  {
    seq(|s|, i requires 0 <= i < |s| => LowerChar(s[i]))
  }

  /** A loop over `items` that threads a state through. */
  function Fold<S, T>(f: (S, T) -> S, s: S, items: seq<T>): S
    decreases |items|
  {
    if items == [] then s else Fold(f, f(s, items[0]), items[1..])
  }

  lemma {:induction false} FoldAppend<S, T>(f: (S, T) -> S, s: S, a: seq<T>, b: seq<T>)
    ensures Fold(f, s, a + b) == Fold(f, Fold(f, s, a), b)
    decreases |a|
  {
    if a == [] {
      assert a + b == b;
    } else {
      assert (a + b)[1..] == a[1..] + b;
      FoldAppend(f, f(s, a[0]), a[1..], b);
    }
  }

  lemma FoldOne<S, T>(f: (S, T) -> S, s: S, x: T)
    ensures Fold(f, s, [x]) == f(s, x)
  {
    assert [x][1..] == [];
  }

  lemma FoldChain<S, T>(f: (S, T) -> S, s: S, mid: S, end: S, a: seq<T>, b: seq<T>)
    requires Fold(f, s, a) == mid && Fold(f, mid, b) == end
    ensures Fold(f, s, a + b) == end
  {
    FoldAppend(f, s, a, b);
  }

  /** A loop that appends what each item gives. */
  function Gather<A, B>(f: A -> seq<B>, items: seq<A>): seq<B> {
    if items == [] then [] else Gather(f, items[..|items| - 1]) + f(items[|items| - 1])
  }

  /** out[k] is what the item at from[k] gives, and the items that give something are all there. */
  ghost predicate Sources<A, B>(f: A -> seq<B>, items: seq<A>, out: seq<B>, from: seq<nat>) {
    && |from| == |out|
    && (forall k :: 0 <= k < |from| ==> from[k] < |items| && f(items[from[k]]) == [out[k]])
    && (forall k, l :: 0 <= k < l < |from| ==> from[k] < from[l])
    && (forall i :: 0 <= i < |items| && f(items[i]) != [] ==> i in from)
  }

  lemma SourcesSkip<A, B>(f: A -> seq<B>, items: seq<A>, out: seq<B>, from: seq<nat>, x: A)
    requires Sources(f, items, out, from) && f(x) == []
    ensures Sources(f, items + [x], out, from)
  {
    forall k | 0 <= k < |from| ensures from[k] < |items + [x]| && f((items + [x])[from[k]]) == [out[k]] {
      assert (items + [x])[from[k]] == items[from[k]];
    }
  }

  lemma SourcesTake<A, B>(f: A -> seq<B>, items: seq<A>, out: seq<B>, from: seq<nat>, x: A, y: B)
    requires Sources(f, items, out, from) && f(x) == [y]
    ensures Sources(f, items + [x], out + [y], from + [|items|])
  {
    var all, out', from' := items + [x], out + [y], from + [|items|];
    forall k | 0 <= k < |from'| ensures from'[k] < |all| && f(all[from'[k]]) == [out'[k]] {
      if k < |from| {
        assert all[from[k]] == items[from[k]];
      }
    }
    forall i | 0 <= i < |all| && f(all[i]) != [] ensures i in from' {
      if i < |items| {
        assert i in from;
      } else {
        assert from'[|from|] == i;
      }
    }
  }

  /** Where each gathered element comes from, if an item gives at most one. */
  lemma {:induction false} GatheredFrom<A, B>(f: A -> seq<B>, items: seq<A>) returns (from: seq<nat>)
    requires forall x :: |f(x)| <= 1
    ensures Sources(f, items, Gather(f, items), from)
  {
    from := [];
    if items != [] {
      var n := |items| - 1;
      var x := items[n];
      var before := GatheredFrom(f, items[..n]);
      assert items == items[..n] + [x];
      if f(x) == [] {
        SourcesSkip(f, items[..n], Gather(f, items[..n]), before, x);
        from := before;
      } else {
        SourcesTake(f, items[..n], Gather(f, items[..n]), before, x, f(x)[0]);
        from := before + [n];
      }
    }
  }

  // ---------- Split and Join ----------

  /** strings.Split on a one-character separator: always at least one part. */
  function Split(s: string, sep: char): (parts: seq<string>)
    ensures |parts| >= 1
  {
    if s == "" then [""]
    else
      var rest := Split(s[1..], sep);
      if s[0] == sep then [""] + rest else [[s[0]] + rest[0]] + rest[1..]
  }

  /** strings.Join with a one-character separator. */
  function Join(parts: seq<string>, sep: char): string {
    if |parts| == 0 then ""
    else if |parts| == 1 then parts[0]
    else parts[0] + [sep] + Join(parts[1..], sep)
  }

  lemma {:induction false} SplitSingle(a: string, sep: char)
    requires sep !in a
    ensures Split(a, sep) == [a]
  {
    if a != "" {
      assert a == [a[0]] + a[1..];
      SplitSingle(a[1..], sep);
    }
  }

  lemma {:induction false} SplitCons(a: string, sep: char, rest: string)
    requires sep !in a
    ensures Split(a + [sep] + rest, sep) == [a] + Split(rest, sep)
  {
    var s := a + [sep] + rest;
    if a == "" {
      assert s[1..] == rest;
    } else {
      assert s[1..] == a[1..] + [sep] + rest;
      assert a == [a[0]] + a[1..];
      SplitCons(a[1..], sep, rest);
    }
  }

  /** Splitting what was joined gives the parts back. */
  lemma {:induction false} SplitJoin(parts: seq<string>, sep: char)
    requires parts != []
    requires forall i :: 0 <= i < |parts| ==> sep !in parts[i]
    ensures Split(Join(parts, sep), sep) == parts
  {
    if |parts| == 1 {
      SplitSingle(parts[0], sep);
    } else {
      SplitJoin(parts[1..], sep);
      SplitCons(parts[0], sep, Join(parts[1..], sep));
    }
  }

  /** No part of a split holds the separator. */
  lemma {:induction false} SplitParts(s: string, sep: char)
    ensures forall i :: 0 <= i < |Split(s, sep)| ==> sep !in Split(s, sep)[i]
  {
    if s != "" {
      SplitParts(s[1..], sep);
    }
  }

  // ---------- trimming ----------

  function TrimLeft(s: string, cut: char -> bool): string {
    if s != "" && cut(s[0]) then TrimLeft(s[1..], cut) else s
  }

  function TrimRight(s: string, cut: char -> bool): string {
    if s != "" && cut(s[|s| - 1]) then TrimRight(s[..|s| - 1], cut) else s
  }

  function Trim(s: string, cut: char -> bool): string {
    TrimRight(TrimLeft(s, cut), cut)
  }

  /** strings.TrimSpace. */
  function TrimSpace(s: string): string {
    Trim(s, IsSpace)
  }

  lemma {:induction false} TrimLeftAll(l: string, s: string, cut: char -> bool)
    requires forall i :: 0 <= i < |l| ==> cut(l[i])
    requires s == "" || !cut(s[0])
    ensures TrimLeft(l + s, cut) == s
  {
    if l == "" {
      assert l + s == s;
    } else {
      assert (l + s)[1..] == l[1..] + s;
      TrimLeftAll(l[1..], s, cut);
    }
  }

  lemma {:induction false} TrimRightAll(s: string, r: string, cut: char -> bool)
    requires forall i :: 0 <= i < |r| ==> cut(r[i])
    requires s == "" || !cut(s[|s| - 1])
    ensures TrimRight(s + r, cut) == s
  {
    if r == "" {
      assert s + r == s;
    } else {
      assert (s + r)[..|s + r| - 1] == s + r[..|r| - 1];
      TrimRightAll(s, r[..|r| - 1], cut);
    }
  }

  /** Trimming removes exactly the padding around a core that neither starts nor ends
      with a cut character. */
  lemma TrimPadded(l: string, s: string, r: string, cut: char -> bool)
    requires forall i :: 0 <= i < |l| ==> cut(l[i])
    requires forall i :: 0 <= i < |r| ==> cut(r[i])
    requires s != "" ==> !cut(s[0]) && !cut(s[|s| - 1])
    ensures Trim(l + s + r, cut) == s
  {
    if s == "" {
      assert l + s + r == (l + r) + "";
      TrimLeftAll(l + r, "", cut);
    } else {
      assert l + s + r == l + (s + r);
      TrimLeftAll(l, s + r, cut);
      TrimRightAll(s, r, cut);
    }
  }

  lemma TrimSpacePadded(l: string, w: string, r: string)
    requires AllSpace(l) && AllSpace(r)
    requires w == "" || Word(w)
    ensures TrimSpace(l + w + r) == w
  {
    TrimPadded(l, w, r, IsSpace);
  }

  // ---------- Fields ----------

  /** The longest prefix without white space. */
  function FirstWord(s: string): (w: string)
    ensures w <= s
    ensures forall i :: 0 <= i < |w| ==> !IsSpace(w[i])
    ensures |w| < |s| ==> IsSpace(s[|w|])
  {
    if s == "" || IsSpace(s[0]) then "" else [s[0]] + FirstWord(s[1..])
  }

  lemma {:induction false} TrimLeftShrinks(s: string, cut: char -> bool)
    ensures |TrimLeft(s, cut)| <= |s|
    ensures TrimLeft(s, cut) == "" || !cut(TrimLeft(s, cut)[0])
  {
    if s != "" && cut(s[0]) {
      TrimLeftShrinks(s[1..], cut);
    }
  }

  /** strings.Fields. */
  function Fields(s: string): seq<string>
    decreases |s|
  {
    TrimLeftShrinks(s, IsSpace);
    var t := TrimLeft(s, IsSpace);
    if t == "" then []
    else
      var w := FirstWord(t);
      [w] + Fields(t[|w|..])
  }

  /** Fields returns words only. */
  lemma {:induction false} FieldsAreWords(s: string)
    ensures forall i :: 0 <= i < |Fields(s)| ==> Word(Fields(s)[i])
    decreases |s|
  {
    TrimLeftShrinks(s, IsSpace);
    var t := TrimLeft(s, IsSpace);
    if t != "" {
      FieldsAreWords(t[|FirstWord(t)|..]);
    }
  }

  lemma {:induction false} FirstWordOf(w: string, rest: string)
    requires forall i :: 0 <= i < |w| ==> !IsSpace(w[i])
    requires rest == "" || IsSpace(rest[0])
    ensures FirstWord(w + rest) == w
  {
    if w == "" {
      assert w + rest == rest;
    } else {
      assert (w + rest)[1..] == w[1..] + rest;
      FirstWordOf(w[1..], rest);
    }
  }

  /** One padded word in front of the rest of a line is one field. */
  lemma FieldsCons(pad: string, w: string, rest: string)
    requires AllSpace(pad) && Word(w)
    requires rest == "" || IsSpace(rest[0])
    ensures Fields(pad + w + rest) == [w] + Fields(rest)
  {
    assert pad + w + rest == pad + (w + rest);
    TrimLeftAll(pad, w + rest, IsSpace);
    FirstWordOf(w, rest);
    assert (w + rest)[|w|..] == rest;
  }

  lemma FieldsBlank(pad: string)
    requires AllSpace(pad)
    ensures Fields(pad) == []
  {
    assert pad + "" == pad;
    TrimLeftAll(pad, "", IsSpace);
  }

  lemma {:induction false} TrimmedToNothing(s: string)
    requires TrimLeft(s, IsSpace) == ""
    ensures AllSpace(s)
  {
    if s != "" {
      TrimmedToNothing(s[1..]);
      assert forall i :: 0 < i < |s| ==> s[i] == s[1..][i - 1];
    }
  }

  lemma FieldsEmptyIff(s: string)
    ensures Fields(s) == [] <==> AllSpace(s)
  {
    if AllSpace(s) {
      FieldsBlank(s);
    } else if TrimLeft(s, IsSpace) == "" {
      TrimmedToNothing(s);
    }
  }

  lemma FieldsOne(w: string)
    requires Word(w)
    ensures Fields(w) == [w]
  {
    FieldsCons("", w, "");
    FieldsBlank("");
    assert "" + w + "" == w;
  }

  lemma FieldsTwo(a: string, b: string)
    requires Word(a) && Word(b)
    ensures Fields(a + " " + b) == [a, b]
  {
    FieldsCons("", a, " " + b);
    FieldsCons(" ", b, "");
    FieldsBlank("");
    assert "" + a + (" " + b) == a + " " + b;
    assert " " + b + "" == " " + b;
  }

  /** The text "type bucket" names one pair of words. */
  lemma PairKeyInjective(a: string, b: string, c: string, d: string)
    requires Word(a) && Word(b) && Word(c) && Word(d)
    requires a + " " + b == c + " " + d
    ensures a == c && b == d
  {
    FieldsTwo(a, b);
    FieldsTwo(c, d);
    assert [a, b] == [c, d];
    assert [a, b][0] == a && [a, b][1] == b;
  }

  // ---------- decimal numbers ----------

  datatype Option<+T> = None | Some(value: T)

  predicate IsDigit(c: char) { '0' <= c <= '9' }

  function Digit(c: char): nat
    requires IsDigit(c)
  {
    c as int - '0' as int
  }

  /** fmt's %d of a non-negative number. */
  function Decimal(n: nat): (s: string)
    ensures s != "" && forall i :: 0 <= i < |s| ==> IsDigit(s[i])
  {
    var last := ('0' as int + n % 10) as char;
    if n < 10 then [last] else Decimal(n / 10) + [last]
  }

  /** The number a text of decimal digits stands for. */
  function ParseDigits(s: string): Option<nat> {
    if s == "" then None
    else if !IsDigit(s[|s| - 1]) then None
    else if |s| == 1 then Some(Digit(s[0]))
    else
      match ParseDigits(s[..|s| - 1])
      case None => None
      case Some(n) => Some(10 * n + Digit(s[|s| - 1]))
  }

  lemma {:induction false} DecimalReadBack(n: nat)
    ensures ParseDigits(Decimal(n)) == Some(n)
  {
    if n >= 10 {
      DecimalReadBack(n / 10);
      var s := Decimal(n);
      assert s[..|s| - 1] == Decimal(n / 10);
    }
  }
}
