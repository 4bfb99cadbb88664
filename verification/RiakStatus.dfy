/** What the operator reads from `riak-admin member-status` and `riak-admin transfers`
    (internal/riak/executor.go, parseMemberStatus and parseTransfersIdle). */
module RiakStatus {
  import opened Text

  /** One row of member-status: the member's state and its Erlang node name. */
  datatype ClusterMember = ClusterMember(status: string, node: string)

  const VALID := "valid"

  predicate KnownStatus(s: string) {
    s == VALID || s == "joining" || s == "leaving" || s == "exiting" || s == "down"
  }

  // ---------- member-status ----------

  /** The member a line names, if any: four fields, the last one a Riak node. */
  function MemberOf(line: string): seq<ClusterMember> {
    var f := Fields(line);
    if |f| != 4 || !HasPrefix(f[3], "riak@") || !KnownStatus(f[0]) then []
    else [ClusterMember(f[0], f[3])]
  }

  function MembersIn(lines: seq<string>): seq<ClusterMember> {
    if lines == [] then [] else MemberOf(lines[0]) + MembersIn(lines[1..])
  }

  function Members(output: string): seq<ClusterMember> {
    MembersIn(Split(output, '\n'))
  }

  lemma MembersStep(members: seq<ClusterMember>, lines: seq<string>, i: nat)
    requires i < |lines|
    ensures members + MembersIn(lines[i..]) == (members + MemberOf(lines[i])) + MembersIn(lines[i + 1..])
    ensures members + [] == members
  {
    assert lines[i..][1..] == lines[i + 1..];
  }

  method ParseMemberStatus(output: string) returns (members: seq<ClusterMember>)
    ensures members == Members(output)
  {
    members := [];
    var lines := Split(output, '\n');
    for i := 0 to |lines|
      invariant members + MembersIn(lines[i..]) == Members(output)
    {
      MembersStep(members, lines, i);
      var f := Fields(lines[i]);
      if |f| != 4 || !HasPrefix(f[3], "riak@") {
        continue;
      }
      if KnownStatus(f[0]) {
        members := members + [ClusterMember(f[0], f[3])];
      }
    }
  }

  /** The text of a row of the table: four columns, a state Riak knows, and a node. */
  predicate NamesMember(text: string) {
    var f := Fields(text);
    |f| == 4 && f[0] in {"valid", "joining", "leaving", "exiting", "down"} && HasPrefix(f[3], "riak@")
  }

  /** A printed line: one that names nobody, or a padded row of four columns. */
  datatype StatusLine =
    | Other(text: string)
    | MemberRow(p0: string, p1: string, p2: string, p3: string, p4: string,
                member: ClusterMember, ring: string, pending: string)
  {
    predicate Valid() {
      match this
      case Other(text) => '\n' !in text && !NamesMember(text)
      case MemberRow(p0, p1, p2, p3, p4, member, ring, pending) =>
        && Padding(p0) && Padding(p1) && Padding(p2) && Padding(p3) && Padding(p4)
        && p1 != "" && p2 != "" && p3 != ""
        && member.status in {"valid", "joining", "leaving", "exiting", "down"} && Word(member.node) && HasPrefix(member.node, "riak@")
        && Word(ring) && Word(pending)
    }

    function Text(): string {
      match this
      case Other(text) => text
      case MemberRow(p0, p1, p2, p3, p4, member, ring, pending) =>
        p0 + member.status + (p1 + ring + (p2 + pending + (p3 + member.node + p4)))
    }

    function Member(): seq<ClusterMember> {
      if MemberRow? then [member] else []
    }
  }

  function Texts(lines: seq<StatusLine>): seq<string> {
    if lines == [] then [] else [lines[0].Text()] + Texts(lines[1..])
  }

  function Printed(lines: seq<StatusLine>): seq<ClusterMember> {
    if lines == [] then [] else lines[0].Member() + Printed(lines[1..])
  }

  lemma StatusIsWord(s: string)
    requires s in {"valid", "joining", "leaving", "exiting", "down"}
    ensures Word(s) && KnownStatus(s)
  {
  }

  /** Four padded words are four fields. */
  lemma FourFields(p0: string, a: string, p1: string, b: string, p2: string, c: string, p3: string, d: string, p4: string)
    requires AllSpace(p0) && AllSpace(p1) && AllSpace(p2) && AllSpace(p3) && AllSpace(p4)
    requires p1 != "" && p2 != "" && p3 != ""
    requires Word(a) && Word(b) && Word(c) && Word(d)
    ensures Fields(p0 + a + (p1 + b + (p2 + c + (p3 + d + p4)))) == [a, b, c, d]
  {
    var r3 := p3 + d + p4;
    var r2 := p2 + c + r3;
    var r1 := p1 + b + r2;
    assert Fields(r3) == [d] by { FieldsCons(p3, d, p4); FieldsBlank(p4); }
    assert Fields(r2) == [c, d] by { FieldsCons(p2, c, r3); }
    assert Fields(r1) == [b, c, d] by { FieldsCons(p1, b, r2); }
    FieldsCons(p0, a, r1);
  }

  lemma KnownStatuses(s: string)
    ensures KnownStatus(s) <==> s in {"valid", "joining", "leaving", "exiting", "down"}
  {
  }

  lemma LineReadBack(line: StatusLine)
    requires line.Valid()
    ensures MemberOf(line.Text()) == line.Member()
  {
    if line.Other? && |Fields(line.text)| == 4 {
      KnownStatuses(Fields(line.text)[0]);
    }
    if line.MemberRow? {
      StatusIsWord(line.member.status);
      FourFields(line.p0, line.member.status, line.p1, line.ring, line.p2, line.pending, line.p3, line.member.node, line.p4);
    }
  }

  lemma LineIsLine(line: StatusLine)
    requires line.Valid()
    ensures '\n' !in line.Text()
  {
    if line.MemberRow? {
      StatusIsWord(line.member.status);
      assert IsSpace('\n');
    }
  }

  lemma {:induction false} LinesReadBack(lines: seq<StatusLine>)
    requires forall i :: 0 <= i < |lines| ==> lines[i].Valid()
    ensures MembersIn(Texts(lines)) == Printed(lines)
    ensures |Texts(lines)| == |lines|
    ensures forall i :: 0 <= i < |Texts(lines)| ==> '\n' !in Texts(lines)[i]
  {
    if lines != [] {
      LineReadBack(lines[0]);
      LineIsLine(lines[0]);
      LinesReadBack(lines[1..]);
    }
  }

  /** The parser returns exactly the members that were printed, in order. */
  lemma MembersAreReadBack(lines: seq<StatusLine>)
    requires lines != [] && forall i :: 0 <= i < |lines| ==> lines[i].Valid()
    ensures Members(Join(Texts(lines), '\n')) == Printed(lines)
  {
    LinesReadBack(lines);
    SplitJoin(Texts(lines), '\n');
  }

  // ---------- transfers ----------

  const HEADER := "active transfers:"

  /** Nothing but blank lines and "ok" stands below an "active transfers:" line. */
  predicate QuietBelowHeader(lines: seq<string>) {
    forall i, j :: 0 <= i < j < |lines| && TrimSpace(lines[i]) == HEADER ==>
      TrimSpace(lines[j]) in {HEADER, "", "ok"}
  }

  /** What an idle reply is: it says so, nobody waits, and nothing is listed as active. */
  predicate Idle(output: string) {
    var lower := ToLower(output);
    && Contains(lower, "no transfers active")
    && !Contains(lower, "waiting to handoff")
    && QuietBelowHeader(Split(lower, '\n'))
  }

  /** The characters that read as a letter in either case. */
  predicate ReadsAs(c: char, l: char) {
    || (c == l && !('A' <= c <= 'Z') && c != '\U{130}' && c != '\U{212A}')
    || ('a' <= l <= 'z' && 'A' <= c <= 'Z' && c - 'A' == l - 'a')
    || (l == 'i' && c == '\U{130}') || (l == 'k' && c == '\U{212A}')
  }

  /** The same text but for the case of its letters. */
  predicate AnyCase(s: string, text: string) {
    |s| == |text| && forall i :: 0 <= i < |s| ==> ReadsAs(s[i], text[i])
  }

  predicate SaysAt(out: string, phrase: string, i: nat) {
    i + |phrase| <= |out| && AnyCase(out[i..i + |phrase|], phrase)
  }

  /** The phrase occurs in some letter case. */
  predicate Says(out: string, phrase: string) {
    exists i :: 0 <= i <= |out| && SaysAt(out, phrase, i)
  }

  lemma LowerReadsAs(c: char, l: char)
    ensures LowerChar(c) == l <==> ReadsAs(c, l)
  {
  }

  lemma LowerIsAnyCase(s: string, text: string)
    ensures ToLower(s) == text <==> AnyCase(s, text)
  {
    forall i | 0 <= i < |s| && i < |text| ensures ToLower(s)[i] == text[i] <==> ReadsAs(s[i], text[i]) {
      LowerReadsAs(s[i], text[i]);
    }
  }

  lemma LowerSlice(s: string, i: nat, j: nat)
    requires i <= j <= |s|
    ensures ToLower(s)[i..j] == ToLower(s[i..j])
  {
  }

  lemma OccursIsSays(out: string, phrase: string, i: nat)
    requires i <= |out|
    ensures OccursAt(ToLower(out), phrase, i) <==> SaysAt(out, phrase, i)
  {
    var lower := ToLower(out);
    if i + |phrase| <= |out| {
      assert lower[i..][..|phrase|] == lower[i..i + |phrase|];
      LowerSlice(out, i, i + |phrase|);
      LowerIsAnyCase(out[i..i + |phrase|], phrase);
    }
  }

  lemma ContainsIsSays(out: string, phrase: string)
    ensures Contains(ToLower(out), phrase) <==> Says(out, phrase)
  {
    forall i | 0 <= i <= |out| ensures OccursAt(ToLower(out), phrase, i) <==> SaysAt(out, phrase, i) {
      OccursIsSays(out, phrase, i);
    }
  }

  function Lowered(lines: seq<string>): seq<string> {
    seq(|lines|, i requires 0 <= i < |lines| => ToLower(lines[i]))
  }

  lemma LoweredCons(a: string, rest: seq<string>)
    ensures Lowered([a] + rest) == [ToLower(a)] + Lowered(rest)
  {
  }

  lemma LoweredHead(c: char, rest: seq<string>)
    requires |rest| >= 1
    ensures Lowered([[c] + rest[0]] + rest[1..]) == [[LowerChar(c)] + Lowered(rest)[0]] + Lowered(rest)[1..]
  {
    LoweredCons([c] + rest[0], rest[1..]);
    assert ToLower([c] + rest[0]) == [LowerChar(c)] + ToLower(rest[0]);
    assert Lowered(rest)[1..] == Lowered(rest[1..]);
  }

  lemma LowerHead(s: string)
    requires s != ""
    ensures ToLower(s) != "" && ToLower(s)[0] == LowerChar(s[0]) && ToLower(s)[1..] == ToLower(s[1..])
    ensures ToLower(s)[0] == '\n' <==> s[0] == '\n'
    ensures ToLower("") == ""
  {
    LowerReadsAs(s[0], '\n');
  }

  lemma {:induction false} SplitLower(s: string)
    ensures Split(ToLower(s), '\n') == Lowered(Split(s, '\n'))
  {
    if s == "" {
      assert Lowered([""]) == [""];
    } else {
      var rest := Split(s[1..], '\n');
      SplitLower(s[1..]);
      LowerHead(s);
      if s[0] == '\n' {
        LoweredCons("", rest);
      } else {
        LoweredHead(s[0], rest);
      }
    }
  }

  lemma LowerKeepsSpace(c: char)
    ensures IsSpace(LowerChar(c)) <==> IsSpace(c)
  {
  }

  lemma {:induction false} TrimLeftLower(s: string)
    ensures TrimLeft(ToLower(s), IsSpace) == ToLower(TrimLeft(s, IsSpace))
  {
    if s != "" {
      LowerKeepsSpace(s[0]);
      assert ToLower(s)[1..] == ToLower(s[1..]);
      TrimLeftLower(s[1..]);
    }
  }

  lemma {:induction false} TrimRightLower(s: string)
    ensures TrimRight(ToLower(s), IsSpace) == ToLower(TrimRight(s, IsSpace))
  {
    if s != "" {
      var n := |s| - 1;
      LowerKeepsSpace(s[n]);
      assert ToLower(s)[..n] == ToLower(s[..n]);
      TrimRightLower(s[..n]);
    }
  }

  /** A line reads as a text, but for white space around it and letter case. */
  predicate Reads(line: string, text: string) { AnyCase(TrimSpace(line), text) }

  lemma TrimmedLower(line: string, text: string)
    ensures TrimSpace(ToLower(line)) == text <==> Reads(line, text)
  {
    TrimLeftLower(line);
    TrimRightLower(TrimLeft(line, IsSpace));
    LowerIsAnyCase(TrimSpace(line), text);
  }

  /** When a transfers reply is idle, in its own words, whatever their letter case: it says that no
      transfers are active, it does not say that somebody waits to hand off, and below an "Active
      Transfers:" line there is nothing but blank lines, "ok" and the header again. */
  lemma IdleIff(out: string)
    ensures Idle(out) <==>
            && Says(out, "no transfers active") && !Says(out, "waiting to handoff")
            && var lines := Split(out, '\n');
               forall i, j :: 0 <= i < j < |lines| && Reads(lines[i], "active transfers:") ==>
                 Reads(lines[j], "active transfers:") || Reads(lines[j], "") || Reads(lines[j], "ok")
  {
    var lines, lowered := Split(out, '\n'), Split(ToLower(out), '\n');
    ContainsIsSays(out, "no transfers active");
    ContainsIsSays(out, "waiting to handoff");
    SplitLower(out);
    forall i | 0 <= i < |lines|
      ensures TrimSpace(lowered[i]) == HEADER <==> Reads(lines[i], "active transfers:")
      ensures TrimSpace(lowered[i]) == "" <==> Reads(lines[i], "")
      ensures TrimSpace(lowered[i]) == "ok" <==> Reads(lines[i], "ok")
    {
      TrimmedLower(lines[i], "active transfers:");
      TrimmedLower(lines[i], "");
      TrimmedLower(lines[i], "ok");
    }
  }

  lemma NoTransfersText()
    ensures ToLower("no transfers active") == "no transfers active"
    ensures '\n' !in "no transfers active" && 'w' !in "no transfers active"
  {
  }

  /** The shortest idle reply. */
  lemma NoTransfersIsIdle(s: string)
    requires s == "no transfers active"
    ensures Idle(s)
  {
    NoTransfersText();
    ContainsItself(s);
    NotContained(s, "waiting to handoff");
    SplitSingle(s, '\n');
  }

  method ParseTransfersIdle(output: string) returns (idle: bool)
    ensures idle <==> Idle(output)
  {
    var lower := ToLower(output);
    if Contains(lower, "waiting to handoff") || !Contains(lower, "no transfers active") {
      return false;
    }
    idle := ScanActive(Split(lower, '\n'));
  }

  /** The flagged scan of the lines. */
  method ScanActive(lines: seq<string>) returns (quiet: bool)
    ensures quiet <==> QuietBelowHeader(lines)
  {
    var inActive := false;
    for i := 0 to |lines|
      invariant inActive <==> exists k :: 0 <= k < i && TrimSpace(lines[k]) == HEADER
      invariant forall j, k :: 0 <= j < k < i && TrimSpace(lines[j]) == HEADER ==>
                  TrimSpace(lines[k]) in {HEADER, "", "ok"}
    {
      var line := TrimSpace(lines[i]);
      if line == HEADER {
        inActive := true;
      } else if inActive && line != "" && line != "ok" {
        return false;
      }
    }
    return true;
  }
}
