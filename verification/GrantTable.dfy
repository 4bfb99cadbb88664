/** `riak-admin security print-grants` and the parser that reads it back
    (internal/riak/executor.go, parseDedicatedGrants). */
module GrantTable {
  import opened Text

  /** One row of a user's dedicated permissions as Riak reports them. */
  datatype GrantEntry = GrantEntry(typ: string, bucket: string, tokens: seq<string>)

  const DEDICATED := "Dedicated permissions"
  const CUMULATIVE := "Cumulative permissions"

  predicate IsBar(c: char) { c == '|' }

  // ---------- the parser ----------

  /** What the parser has read so far; `done` is its early return. */
  datatype Reader = Reader(inSection: bool, done: bool, entries: seq<GrantEntry>)

  const START := Reader(false, false, [])

  function Columns(line: string): seq<string> {
    Split(Trim(line, IsBar), '|')
  }

  /** The trimmed, non-empty parts of a comma separated cell. */
  function Trimmed(parts: seq<string>): seq<string> {
    if parts == [] then []
    else
      var t := TrimSpace(parts[0]);
      (if t == "" then [] else [t]) + Trimmed(parts[1..])
  }

  function CellTokens(cell: string): seq<string> {
    Trimmed(Split(cell, ','))
  }

  function AddRow(entries: seq<GrantEntry>, typ: string, bucket: string, tokens: seq<string>): seq<GrantEntry> {
    if typ == "" && |entries| > 0 then
      var last := entries[|entries| - 1];
      entries[|entries| - 1 := last.(tokens := last.tokens + tokens)]
    else
      entries + [GrantEntry(typ, bucket, tokens)]
  }

  function ReadLine(st: Reader, line: string): Reader {
    if st.done then st
    else if HasPrefix(line, DEDICATED) then st.(inSection := true)
    else if HasPrefix(line, CUMULATIVE) then st.(done := true)
    else if !st.inSection || !HasPrefix(line, "|") then st
    else
      var cols := Columns(line);
      if |cols| != 3 then st
      else
        var typ, bucket := TrimSpace(cols[0]), TrimSpace(cols[1]);
        if typ == "type" then st
        else st.(entries := AddRow(st.entries, typ, bucket, CellTokens(cols[2])))
  }

  function ReadLines(st: Reader, lines: seq<string>): Reader {
    Fold(ReadLine, st, lines)
  }

  /** The entries print-grants output stands for. */
  function Dedicated(output: string): seq<GrantEntry> {
    ReadLines(START, Split(output, '\n')).entries
  }

  lemma TrimmedStep(tokens: seq<string>, parts: seq<string>, i: nat)
    requires i < |parts|
    ensures tokens + Trimmed(parts[i..]) ==
            (if TrimSpace(parts[i]) == "" then tokens else tokens + [TrimSpace(parts[i])]) + Trimmed(parts[i + 1..])
  {
    assert parts[i..][1..] == parts[i + 1..];
  }

  method TokensInCell(cell: string) returns (tokens: seq<string>)
    ensures tokens == CellTokens(cell)
  {
    tokens := [];
    var parts := Split(cell, ',');
    for i := 0 to |parts|
      invariant tokens + Trimmed(parts[i..]) == Trimmed(parts)
    {
      TrimmedStep(tokens, parts, i);
      var t := TrimSpace(parts[i]);
      if t != "" {
        tokens := tokens + [t];
      }
    }
  }

  /** The parser as written: a scan with a section flag that extends the last entry in place. */
  method ParseDedicatedGrants(output: string) returns (entries: seq<GrantEntry>)
    ensures entries == Dedicated(output)
  {
    var lines := Split(output, '\n');
    entries := [];
    var inSection := false;
    for i := 0 to |lines|
      invariant ReadLines(Reader(inSection, false, entries), lines[i..]) == ReadLines(START, lines)
    {
      var line := lines[i];
      if HasPrefix(line, DEDICATED) {
        inSection := true;
        continue;
      } else if HasPrefix(line, CUMULATIVE) {
        DoneStays(Reader(inSection, true, entries), lines[i + 1..]);
        return;
      } else if !inSection || !HasPrefix(line, "|") {
        continue;
      }
      var cols := Columns(line);
      if |cols| != 3 {
        continue;
      }
      var typ, bucket := TrimSpace(cols[0]), TrimSpace(cols[1]);
      if typ == "type" {
        continue;
      }
      var tokens := TokensInCell(cols[2]);
      if typ == "" && |entries| > 0 {
        var last := entries[|entries| - 1];
        entries := entries[|entries| - 1 := last.(tokens := last.tokens + tokens)];
        continue;
      }
      entries := entries + [GrantEntry(typ, bucket, tokens)];
    }
  }

  lemma {:induction false} DoneStays(st: Reader, lines: seq<string>)
    requires st.done
    ensures ReadLines(st, lines) == st
  {
    if lines != [] {
      DoneStays(st, lines[1..]);
    }
  }

  // ---------- the printer ----------

  /** The titles riak-admin prints. */
  const DEDICATED_TITLE := "Dedicated permissions"
  const CUMULATIVE_TITLE := "Cumulative permissions"

  /** One comma separated part of a cell: a token or nothing, with padding. */
  datatype Piece = Piece(left: string, word: string, right: string) {
    predicate Valid() {
      && Padding(left) && Padding(right)
      && (word == "" || TokenName(word))
    }

    function Text(): string { left + word + right }
  }

  /** A printed row; `typ` is empty on a continuation row. */
  datatype Row = Row(typLeft: string, typ: string, typRight: string, bucketCell: string, pieces: seq<Piece>) {
    predicate Valid() {
      && Padding(typLeft) && Padding(typRight)
      && (typ == "" || TypeName(typ))
      && TypeCell() != ""
      && CellText(bucketCell)
      && pieces != [] && TokenCell() != ""
      && forall i :: 0 <= i < |pieces| ==> pieces[i].Valid()
    }

    function TypeCell(): string { typLeft + typ + typRight }

    function TokenCell(): string { Join(PieceTexts(pieces), ',') }

    function Line(): string { RowLine(TypeCell(), bucketCell, TokenCell()) }
  }

  /** One entry: its first row and the rows its token list wraps onto. */
  datatype Block = Block(first: Row, bucket: string, bucketLeft: string, bucketRight: string, more: seq<Row>) {
    predicate Valid() {
      && first.Valid() && first.typ != ""
      && Padding(bucketLeft) && Padding(bucketRight)
      && Name(bucket) && first.bucketCell == bucketLeft + bucket + bucketRight
      && forall i :: 0 <= i < |more| ==> more[i].Valid() && more[i].typ == ""
    }

    function Entry(): GrantEntry {
      GrantEntry(first.typ, bucket, Words(first.pieces) + RowWords(more))
    }

    function Lines(): seq<string> { [first.Line()] + RowLines(more) }
  }

  /** A line of the table body: a rule or blank line, the header row, or an entry. */
  datatype Item = Noise(text: string) | Header(left: string, right: string, bucketCell: string, tokenCell: string) | Grants(block: Block) {
    predicate Valid() {
      match this
      case Noise(text) =>
        !HasPrefix(text, "|") && !HasPrefix(text, CUMULATIVE_TITLE) && '\n' !in text
      case Header(left, right, bucketCell, tokenCell) =>
        Padding(left) && Padding(right) && CellText(bucketCell) && CellText(tokenCell) && tokenCell != ""
      case Grants(block) => block.Valid()
    }

    function Lines(): seq<string> {
      match this
      case Noise(text) => [text]
      case Header(left, right, bucketCell, tokenCell) => [RowLine(left + "type" + right, bucketCell, tokenCell)]
      case Grants(block) => block.Lines()
    }

    function Entries(): seq<GrantEntry> {
      if Grants? then [block.Entry()] else []
    }
  }

  /** A whole reply: anything before the section, the section, and whatever follows
      the cumulative section's title. */
  datatype Reply = Reply(preamble: seq<string>, title: string, body: seq<Item>, rest: seq<string>) {
    predicate Valid() {
      && (forall i :: 0 <= i < |preamble| ==>
            '\n' !in preamble[i] && !HasPrefix(preamble[i], DEDICATED_TITLE) && !HasPrefix(preamble[i], CUMULATIVE_TITLE))
      && '\n' !in title
      && (forall i :: 0 <= i < |body| ==> body[i].Valid())
      && (rest != [] ==> HasPrefix(rest[0], CUMULATIVE_TITLE))
      && (forall i :: 0 <= i < |rest| ==> '\n' !in rest[i])
    }

    function Lines(): seq<string> {
      preamble + [DEDICATED_TITLE + title] + BodyLines(body) + rest
    }

    function Output(): string { Join(Lines(), '\n') }

    function Entries(): seq<GrantEntry> { BodyEntries(body) }
  }

  predicate CellText(s: string) { '|' !in s && '\n' !in s }

  /** Names as they can stand in a cell. */
  predicate Name(s: string) { Word(s) && '|' !in s }

  predicate TypeName(s: string) { Name(s) && s != "type" }

  predicate TokenName(s: string) { Name(s) && ',' !in s }

  function RowLine(a: string, b: string, c: string): string {
    "|" + a + "|" + b + "|" + c + "|"
  }

  function PieceTexts(pieces: seq<Piece>): (r: seq<string>)
    ensures |r| == |pieces|
  {
    seq(|pieces|, i requires 0 <= i < |pieces| => pieces[i].Text())
  }

  function Words(pieces: seq<Piece>): seq<string> {
    if pieces == [] then []
    else (if pieces[0].word == "" then [] else [pieces[0].word]) + Words(pieces[1..])
  }

  function RowWords(rows: seq<Row>): seq<string> {
    if rows == [] then [] else Words(rows[0].pieces) + RowWords(rows[1..])
  }

  function RowLines(rows: seq<Row>): seq<string> {
    if rows == [] then [] else [rows[0].Line()] + RowLines(rows[1..])
  }

  function BodyLines(body: seq<Item>): seq<string> {
    if body == [] then [] else body[0].Lines() + BodyLines(body[1..])
  }

  function BodyEntries(body: seq<Item>): seq<GrantEntry> {
    if body == [] then [] else body[0].Entries() + BodyEntries(body[1..])
  }

  // ---------- the parser inverts the printer ----------

  lemma ThreeColumns(a: string, b: string, c: string)
    requires '|' !in a && '|' !in b && '|' !in c
    requires a != "" && c != ""
    ensures Columns(RowLine(a, b, c)) == [a, b, c]
  {
    var right := b + ['|'] + c;
    var inner := a + ['|'] + right;
    assert RowLine(a, b, c) == "|" + inner + "|";
    assert inner[0] == a[0] && inner[|inner| - 1] == c[|c| - 1];
    TrimPadded("|", inner, "|", IsBar);
    assert Split(inner, '|') == [a, b, c] by {
      SplitCons(a, '|', right);
      SplitCons(b, '|', c);
      SplitSingle(c, '|');
    }
  }

  /** The three cells of a row come back exactly when the first and the last one are not
      zero-width: strings.Trim strips every bar at the ends, so an empty outer cell is lost. */
  lemma ColumnsRecovered(a: string, b: string, c: string)
    requires '|' !in a && '|' !in b && '|' !in c
    ensures Columns(RowLine(a, b, c)) == [a, b, c] <==> a != "" && c != ""
  {
    if a != "" && c != "" {
      ThreeColumns(a, b, c);
    } else {
      TwoColumnsAtMost(a, b, c);
    }
  }

  /** With an empty outer cell at most one inner bar is left. */
  lemma TwoColumnsAtMost(a: string, b: string, c: string)
    requires '|' !in a && '|' !in b && '|' !in c
    requires a == "" || c == ""
    ensures |Columns(RowLine(a, b, c))| <= 2
  {
    var line := RowLine(a, b, c);
    if a == "" && c == "" {
      assert line == "||" + b + "||";
      TrimPadded("||", b, "||", IsBar);
      SplitSingle(b, '|');
    } else if a == "" {
      if b == "" {
        assert line == "|||" + c + "|";
        TrimPadded("|||", c, "|", IsBar);
        SplitSingle(c, '|');
      } else {
        assert line == "||" + (b + ['|'] + c) + "|";
        TrimPadded("||", b + ['|'] + c, "|", IsBar);
        SplitCons(b, '|', c);
        SplitSingle(c, '|');
      }
    } else if b == "" {
      assert line == "|" + a + "|||";
      TrimPadded("|", a, "|||", IsBar);
      SplitSingle(a, '|');
    } else {
      assert line == "|" + (a + ['|'] + b) + "||";
      TrimPadded("|", a + ['|'] + b, "||", IsBar);
      SplitCons(a, '|', b);
      SplitSingle(b, '|');
    }
  }

  /** So a continuation row whose type cell has no padding at all loses its tokens. */
  lemma ZeroWidthContinuationIsDropped(st: Reader, b: string, c: string)
    requires '|' !in b && '|' !in c
    ensures ReadLine(st, RowLine("", b, c)) == st
  {
    TwoColumnsAtMost("", b, c);
    var line := RowLine("", b, c);
    assert line[0] == '|' && DEDICATED[0] == 'D' && CUMULATIVE[0] == 'C';
  }

  lemma {:induction false} JoinKeepsEnds(cells: seq<string>)
    requires |cells| > 0 && (forall i :: 0 <= i < |cells| ==> '|' !in cells[i])
    requires cells[0] != "" && cells[|cells| - 1] != ""
    ensures var text := Join(cells, '|');
            text != "" && text[0] != '|' && text[|text| - 1] != '|'
  {
    if |cells| > 1 {
      var last := cells[|cells| - 1];
      JoinEnds(cells);
    }
  }

  lemma {:induction false} JoinEnds(cells: seq<string>)
    requires |cells| > 0 && cells[|cells| - 1] != ""
    ensures var text := Join(cells, '|');
            text != "" && text[|text| - 1] == cells[|cells| - 1][|cells[|cells| - 1]| - 1]
  {
    if |cells| > 1 {
      JoinEnds(cells[1..]);
    }
  }

  /** A row with any number of columns but three is skipped. */
  lemma OddRowIsSkipped(st: Reader, cells: seq<string>)
    requires |cells| > 0 && |cells| != 3 && (forall i :: 0 <= i < |cells| ==> '|' !in cells[i])
    requires cells[0] != "" && cells[|cells| - 1] != ""
    ensures ReadLine(st, "|" + Join(cells, '|') + "|") == st
  {
    var text := Join(cells, '|');
    var line := "|" + text + "|";
    JoinKeepsEnds(cells);
    TrimPadded("|", text, "|", IsBar);
    SplitJoin(cells, '|');
    assert Columns(line) == cells;
    assert line[0] == '|' && DEDICATED[0] == 'D' && CUMULATIVE[0] == 'C';
  }

  /** A continuation row with no entry to continue becomes an entry without a type. */
  lemma OrphanBecomesEntry(st: Reader, row: Row)
    requires row.Valid() && row.typ == "" && st.inSection && !st.done && st.entries == []
    ensures ReadLine(st, row.Line()).entries == [GrantEntry("", TrimSpace(row.bucketCell), Words(row.pieces))]
  {
    ReadRow(st, row, TrimSpace(row.bucketCell));
  }

  lemma {:induction false} TrimmedPieces(pieces: seq<Piece>)
    requires forall i :: 0 <= i < |pieces| ==> pieces[i].Valid()
    ensures Trimmed(PieceTexts(pieces)) == Words(pieces)
  {
    if pieces != [] {
      TrimSpacePadded(pieces[0].left, pieces[0].word, pieces[0].right);
      assert PieceTexts(pieces)[1..] == PieceTexts(pieces[1..]);
      TrimmedPieces(pieces[1..]);
    }
  }

  lemma {:induction false} JoinAvoids(parts: seq<string>, sep: char, c: char)
    requires c != sep && forall i :: 0 <= i < |parts| ==> c !in parts[i]
    ensures c !in Join(parts, sep)
  {
    if |parts| > 1 {
      JoinAvoids(parts[1..], sep, c);
    }
  }

  lemma SpaceIsNoSeparator()
    ensures !IsSpace(',') && !IsSpace('|')
  {
  }

  lemma PieceAvoids(p: Piece)
    requires p.Valid()
    ensures ',' !in p.Text() && '|' !in p.Text() && '\n' !in p.Text()
  {
    SpaceIsNoSeparator();
    assert IsSpace('\n');
  }

  lemma RowCells(row: Row)
    requires row.Valid()
    ensures CellText(row.TypeCell()) && CellText(row.TokenCell())
    ensures CellTokens(row.TokenCell()) == Words(row.pieces)
  {
    assert IsSpace('\n') && !IsSpace('|');
    var texts := PieceTexts(row.pieces);
    forall i | 0 <= i < |texts| ensures ',' !in texts[i] && '|' !in texts[i] && '\n' !in texts[i] {
      PieceAvoids(row.pieces[i]);
    }
    SplitJoin(texts, ',');
    TrimmedPieces(row.pieces);
    JoinAvoids(texts, ',', '|');
    JoinAvoids(texts, ',', '\n');
  }

  lemma BarLineIsRow(line: string)
    requires HasPrefix(line, "|")
    ensures !HasPrefix(line, DEDICATED) && !HasPrefix(line, CUMULATIVE)
  {
    assert line[0] == '|' && DEDICATED[0] == 'D' && CUMULATIVE[0] == 'C';
  }

  /** Reading one printed row adds its words under its type. */
  lemma ReadRow(st: Reader, row: Row, bucket: string)
    requires row.Valid() && st.inSection && !st.done
    requires bucket == TrimSpace(row.bucketCell)
    ensures ReadLine(st, row.Line()) == st.(entries := AddRow(st.entries, row.typ, bucket, Words(row.pieces)))
  {
    RowCells(row);
    ColumnsRecovered(row.TypeCell(), row.bucketCell, row.TokenCell());
    TrimSpacePadded(row.typLeft, row.typ, row.typRight);
    BarLineIsRow(row.Line());
  }

  lemma AddContinuation(before: seq<GrantEntry>, e: GrantEntry, bucket: string, tokens: seq<string>)
    ensures AddRow(before + [e], "", bucket, tokens) == before + [e.(tokens := e.tokens + tokens)]
  {
  }

  function Longer(e: GrantEntry, tokens: seq<string>): GrantEntry {
    e.(tokens := e.tokens + tokens)
  }

  function EndingIn(st: Reader, before: seq<GrantEntry>, e: GrantEntry): Reader {
    st.(entries := before + [e])
  }

  lemma ReadContinuation(st: Reader, row: Row, before: seq<GrantEntry>, e: GrantEntry)
    requires row.Valid() && row.typ == "" && st.inSection && !st.done && st.entries == before + [e]
    ensures Fold(ReadLine, st, [row.Line()]) == EndingIn(st, before, Longer(e, Words(row.pieces)))
  {
    var bucket := TrimSpace(row.bucketCell);
    ReadRow(st, row, bucket);
    AddContinuation(before, e, bucket, Words(row.pieces));
    FoldOne(ReadLine, st, row.Line());
  }

  lemma LongerTwice(e: GrantEntry, a: seq<string>, b: seq<string>)
    ensures Longer(Longer(e, a), b) == Longer(e, a + b) && Longer(e, []) == e
  {
    assert e.tokens + a + b == e.tokens + (a + b);
    assert e.tokens + [] == e.tokens;
  }

  lemma {:induction false} ReadContinuations(st: Reader, rows: seq<Row>, before: seq<GrantEntry>, e: GrantEntry)
    requires st.inSection && !st.done && st.entries == before + [e]
    requires forall i :: 0 <= i < |rows| ==> rows[i].Valid() && rows[i].typ == ""
    ensures Fold(ReadLine, st, RowLines(rows)) == EndingIn(st, before, Longer(e, RowWords(rows)))
    decreases |rows|
  {
    if rows == [] {
      LongerTwice(e, [], []);
    } else {
      var words, more := Words(rows[0].pieces), RowWords(rows[1..]);
      var e' := Longer(e, words);
      ReadContinuation(st, rows[0], before, e);
      ReadContinuations(EndingIn(st, before, e'), rows[1..], before, e');
      LongerTwice(e, words, more);
      FoldChain(ReadLine, st, EndingIn(st, before, e'), EndingIn(st, before, Longer(e', more)),
                [rows[0].Line()], RowLines(rows[1..]));
    }
  }

  lemma {:induction false} RowLinesAreLines(rows: seq<Row>)
    requires forall i :: 0 <= i < |rows| ==> rows[i].Valid()
    ensures forall i :: 0 <= i < |RowLines(rows)| ==> '\n' !in RowLines(rows)[i]
  {
    if rows != [] {
      RowCells(rows[0]);
      RowLinesAreLines(rows[1..]);
    }
  }

  lemma ReadItem(st: Reader, item: Item)
    requires st.inSection && !st.done && item.Valid()
    ensures Fold(ReadLine, st, item.Lines()) == Extended(st, item.Entries())
  {
    assert st.entries + [] == st.entries;
    match item
    case Noise(text) =>
      assert item.Lines()[1..] == [];
    case Header(left, right, bucketCell, tokenCell) =>
      assert item.Lines()[1..] == [];
      assert Word("type") && !IsSpace('|') && IsSpace('\n');
      TrimSpacePadded(left, "type", right);
      ColumnsRecovered(left + "type" + right, bucketCell, tokenCell);
      BarLineIsRow(item.Lines()[0]);
    case Grants(block) =>
      TrimSpacePadded(block.bucketLeft, block.bucket, block.bucketRight);
      ReadRow(st, block.first, block.bucket);
      var e := GrantEntry(block.first.typ, block.bucket, Words(block.first.pieces));
      var st' := st.(entries := st.entries + [e]);
      ReadContinuations(st', block.more, st.entries, e);
      FoldOne(ReadLine, st, block.first.Line());
      FoldChain(ReadLine, st, st', EndingIn(st', st.entries, Longer(e, RowWords(block.more))),
                [block.first.Line()], RowLines(block.more));
  }

  function Extended(st: Reader, more: seq<GrantEntry>): Reader {
    st.(entries := st.entries + more)
  }

  lemma ExtendedTwice(st: Reader, es: seq<GrantEntry>, fs: seq<GrantEntry>)
    ensures Extended(Extended(st, es), fs) == Extended(st, es + fs)
    ensures Extended(st, []) == st
  {
    assert st.entries + es + fs == st.entries + (es + fs);
    assert st.entries + [] == st.entries;
  }

  lemma {:induction false} ReadBody(st: Reader, body: seq<Item>)
    requires st.inSection && !st.done
    requires forall i :: 0 <= i < |body| ==> body[i].Valid()
    ensures Fold(ReadLine, st, BodyLines(body)) == Extended(st, BodyEntries(body))
    decreases |body|
  {
    if body == [] {
      ExtendedTwice(st, [], []);
    } else {
      var es := body[0].Entries();
      ReadItem(st, body[0]);
      ReadBody(Extended(st, es), body[1..]);
      ExtendedTwice(st, es, BodyEntries(body[1..]));
      FoldChain(ReadLine, st, Extended(st, es), Extended(st, BodyEntries(body)),
                body[0].Lines(), BodyLines(body[1..]));
    }
  }

  lemma ItemLinesAreLines(item: Item)
    requires item.Valid()
    ensures forall i :: 0 <= i < |item.Lines()| ==> '\n' !in item.Lines()[i]
  {
    match item
    case Noise(text) =>
    case Header(left, right, bucketCell, tokenCell) =>
    case Grants(block) =>
      RowCells(block.first);
      RowLinesAreLines(block.more);
  }

  lemma {:induction false} BodyLinesAreLines(body: seq<Item>)
    requires forall i :: 0 <= i < |body| ==> body[i].Valid()
    ensures forall i :: 0 <= i < |BodyLines(body)| ==> '\n' !in BodyLines(body)[i]
  {
    if body != [] {
      ItemLinesAreLines(body[0]);
      BodyLinesAreLines(body[1..]);
    }
  }

  lemma {:induction false} ReadPreamble(lines: seq<string>)
    requires forall i :: 0 <= i < |lines| ==> !HasPrefix(lines[i], DEDICATED) && !HasPrefix(lines[i], CUMULATIVE)
    ensures ReadLines(START, lines) == START
  {
    if lines != [] {
      ReadPreamble(lines[1..]);
    }
  }

  lemma ReplyLinesAreLines(reply: Reply)
    requires reply.Valid()
    ensures forall i :: 0 <= i < |reply.Lines()| ==> '\n' !in reply.Lines()[i]
  {
    assert '\n' !in DEDICATED;
    BodyLinesAreLines(reply.body);
  }

  lemma ReadTitle(title: string)
    ensures Fold(ReadLine, START, [DEDICATED + title]) == START.(inSection := true)
  {
    var line := DEDICATED + title;
    assert HasPrefix(line, DEDICATED);
    assert [line][1..] == [];
    assert Fold(ReadLine, ReadLine(START, line), []) == ReadLine(START, line);
  }

  lemma ReadRest(st: Reader, rest: seq<string>)
    requires rest != [] ==> HasPrefix(rest[0], CUMULATIVE)
    ensures Fold(ReadLine, st, rest).entries == st.entries
  {
    if rest != [] && !st.done {
      assert rest[0][0] == 'C' && DEDICATED[0] == 'D';
      DoneStays(st.(done := true), rest[1..]);
    } else if rest != [] {
      DoneStays(st, rest);
    }
  }

  /** The parser returns exactly the entries that were printed: for any entries, padding,
      rule lines, wrapping of token lists and a cumulative section after them. */
  lemma PrintedGrantsAreReadBack(reply: Reply)
    requires reply.Valid()
    ensures Dedicated(reply.Output()) == reply.Entries()
  {
    var title, body, inside := [DEDICATED + reply.title], BodyLines(reply.body), START.(inSection := true);
    var st := Extended(inside, reply.Entries());
    ReadPreamble(reply.preamble);
    ReadTitle(reply.title);
    FoldChain(ReadLine, START, START, inside, reply.preamble, title);
    ReadBody(inside, reply.body);
    FoldChain(ReadLine, START, inside, st, reply.preamble + title, body);
    ReadRest(st, reply.rest);
    FoldChain(ReadLine, START, st, Fold(ReadLine, st, reply.rest), reply.preamble + title + body, reply.rest);
    ReplyLinesAreLines(reply);
    SplitJoin(reply.Lines(), '\n');
    assert [] + reply.Entries() == reply.Entries();
  }

  // ---------- every list of entries can be printed ----------

  predicate Printable(e: GrantEntry) {
    && TypeName(e.typ) && Name(e.bucket)
    && e.tokens != [] && forall i :: 0 <= i < |e.tokens| ==> TokenName(e.tokens[i])
  }

  function PlainPieces(tokens: seq<string>): seq<Piece> {
    if tokens == [] then [] else [Piece("", tokens[0], "")] + PlainPieces(tokens[1..])
  }

  lemma {:induction false} PlainPiecesValid(tokens: seq<string>)
    requires forall i :: 0 <= i < |tokens| ==> TokenName(tokens[i])
    ensures Words(PlainPieces(tokens)) == tokens && |PlainPieces(tokens)| == |tokens|
    ensures forall i :: 0 <= i < |tokens| ==> PlainPieces(tokens)[i].Valid()
  {
    if tokens != [] {
      PlainPiecesValid(tokens[1..]);
    }
  }

  function PlainItem(e: GrantEntry): Item {
    Grants(Block(Row(" ", e.typ, " ", " " + e.bucket + " ", PlainPieces(e.tokens)), e.bucket, " ", " ", []))
  }

  lemma PlainItemValid(e: GrantEntry)
    requires Printable(e)
    ensures PlainItem(e).Valid() && PlainItem(e).Entries() == [e]
  {
    PlainPiecesValid(e.tokens);
    var row := PlainItem(e).block.first;
    assert row.TokenCell() != "" by {
      assert row.pieces[0].Text() == e.tokens[0] by { assert row.pieces[0] == Piece("", e.tokens[0], ""); }
      assert PieceTexts(row.pieces)[0] != "";
    }
    assert e.tokens + [] == e.tokens;
  }

  function PlainItems(entries: seq<GrantEntry>): seq<Item> {
    if entries == [] then [] else [PlainItem(entries[0])] + PlainItems(entries[1..])
  }

  lemma {:induction false} PlainItemsValid(entries: seq<GrantEntry>)
    requires forall i :: 0 <= i < |entries| ==> Printable(entries[i])
    ensures forall i :: 0 <= i < |PlainItems(entries)| ==> PlainItems(entries)[i].Valid()
    ensures BodyEntries(PlainItems(entries)) == entries
  {
    if entries != [] {
      PlainItemValid(entries[0]);
      PlainItemsValid(entries[1..]);
      assert PlainItems(entries)[1..] == PlainItems(entries[1..]);
    }
  }

  /** Any entries with proper names have a valid print-grants reply. */
  lemma EveryListIsPrintable(entries: seq<GrantEntry>) returns (reply: Reply)
    requires forall i :: 0 <= i < |entries| ==> Printable(entries[i])
    ensures reply.Valid() && reply.Entries() == entries
  {
    PlainItemsValid(entries);
    reply := Reply([], "", PlainItems(entries), []);
  }
}
