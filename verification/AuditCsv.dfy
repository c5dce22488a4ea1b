/**
 * The printer of `apps/proxy-server/src/audit-csv.ts`, against a reader of section 2 of RFC 4180 that also
 * takes a lone LF as a line break.
 */
module AuditCsv {
  import opened Base
  import opened Text

  // ---------------------------------------------------------------------------
  // The printer.
  // ---------------------------------------------------------------------------

  predicate Special(c: char) {
    c == '"' || c == ',' || c == '\n' || c == '\r'
  }

  predicate NeedsQuotes(value: string) {
    || (exists c | c in value :: Special(c))
    || value != Trim(value)
  }

  /** `value.replaceAll('"', '""')`. */
  function Doubled(value: string): string {
    if value == [] then []
    else Doubled(value[..|value| - 1]) + (if Last(value) == '"' then "\"\"" else [Last(value)])
  }

  function CsvField(value: string): string {
    if NeedsQuotes(value) then "\"" + Doubled(value) + "\"" else value
  }

  /** `csvRow` and `csvHeader`, over the cells that the column table gives. */
  function CsvRow(cells: seq<string>): string
    requires cells != []
  {
    if |cells| == 1 then CsvField(cells[0]) else CsvRow(cells[..|cells| - 1]) + "," + CsvField(Last(cells))
  }

  /** At least one column: the table's are twenty-three. */
  type Cells = cells: seq<string> | cells != [] witness [""]

  /** The export: one line a row, each ended by a line feed. */
  function CsvLines(rows: seq<Cells>): string {
    if rows == [] then [] else CsvLines(rows[..|rows| - 1]) + CsvRow(Last(rows)) + "\n"
  }

  // ---------------------------------------------------------------------------
  // The reader.
  // ---------------------------------------------------------------------------

  /** `AfterQuote`: a quote inside a quoted field, which closes it or is the first of a pair. */
  datatype Mode = FieldStart | Plain | Quoted | AfterQuote | AfterCr | Broken

  datatype Reader = Reader(mode: Mode, rows: seq<seq<string>>, row: seq<string>, field: string)

  const FRESH := Reader(FieldStart, [], [], [])

  function EndField(r: Reader): Reader {
    Reader(FieldStart, r.rows, r.row + [r.field], [])
  }

  function EndRow(r: Reader): Reader {
    Reader(FieldStart, r.rows + [r.row + [r.field]], [], [])
  }

  function Keep(r: Reader, mode: Mode, c: char): Reader {
    r.(mode := mode, field := r.field + [c])
  }

  function Eat(r: Reader, c: char): Reader {
    match r.mode
    case FieldStart =>
      if c == '"' then r.(mode := Quoted)
      else if c == ',' then EndField(r)
      else if c == '\n' then EndRow(r)
      else if c == '\r' then r.(mode := AfterCr)
      else Keep(r, Plain, c)
    case Plain =>
      if c == ',' then EndField(r)
      else if c == '\n' then EndRow(r)
      else if c == '\r' then r.(mode := AfterCr)
      else if c == '"' then r.(mode := Broken)
      else Keep(r, Plain, c)
    case Quoted => if c == '"' then r.(mode := AfterQuote) else Keep(r, Quoted, c)
    case AfterQuote =>
      if c == '"' then Keep(r, Quoted, c)
      else if c == ',' then EndField(r)
      else if c == '\n' then EndRow(r)
      else if c == '\r' then r.(mode := AfterCr)
      else r.(mode := Broken)
    case AfterCr => if c == '\n' then EndRow(r) else r.(mode := Broken)
    case Broken => r
  }

  function Feed(r: Reader, text: string): Reader {
    if text == [] then r else Eat(Feed(r, text[..|text| - 1]), Last(text))
  }

  /** The rows of a text, or `None` for one that is not CSV. The last line break may be missing. */
  function Read(text: string): Option<seq<seq<string>>> {
    var r := Feed(FRESH, text);
    match r.mode
    case FieldStart => Some(if r.row == [] && r.field == [] then r.rows else EndRow(r).rows)
    case Plain | AfterQuote => Some(EndRow(r).rows)
    case _ => None
  }

  // ---------------------------------------------------------------------------
  // Reading back what was printed.
  // ---------------------------------------------------------------------------

  lemma {:induction false} FeedConcat(r: Reader, a: string, b: string)
    ensures Feed(r, a + b) == Feed(Feed(r, a), b)
    decreases |b|
  {
    hide Eat;
    if b == [] {
      assert a + b == a;
    } else {
      var init := b[..|b| - 1];
      FeedConcat(r, a, init);
      assert (a + b)[..|a + b| - 1] == a + init;
    }
  }

  lemma FeedOne(r: Reader, c: char)
    ensures Feed(r, [c]) == Eat(r, c)
  {
    assert [c][..0] == [];
    assert Feed(r, [c][..0]) == r;
  }

  lemma FeedSnoc(r: Reader, text: string, c: char)
    ensures Feed(r, text + [c]) == Eat(Feed(r, text), c)
  {
    assert (text + [c])[..|text|] == text;
  }

  lemma FeedNothing(r: Reader)
    ensures Feed(r, []) == r
  {
  }

  /** A quote inside quotes, as its pair. */
  lemma FeedPair(r: Reader, text: string)
    requires Feed(r, text).mode == Quoted
    ensures Feed(r, text + "\"\"") == Keep(Feed(r, text), Quoted, '"')
  {
    var mid := Feed(r, text);
    FeedSnoc(r, text, '"');
    FeedSnoc(r, text + ['"'], '"');
    assert text + "\"\"" == text + ['"'] + ['"'];
    hide Feed;
  }

  lemma DoubledSnoc(value: string)
    requires value != []
    ensures Doubled(value) == Doubled(value[..|value| - 1]) + (if Last(value) == '"' then "\"\"" else [Last(value)])
  {
  }

  /** Inside quotes every character is kept, a doubled quote as one. */
  lemma {:induction false} FeedDoubled(r: Reader, value: string)
    requires r.mode == Quoted
    ensures Feed(r, Doubled(value)) == r.(field := r.field + value)
  {
    hide Feed, Doubled;
    if value == [] {
      FeedNothing(r);
      NothingDoubled();
      assert r.field + value == r.field;
    } else {
      var init, c := value[..|value| - 1], Last(value);
      FeedDoubled(r, init);
      DoubledSnoc(value);
      Associative(r.field, init, [c]);
      assert init + [c] == value;
      if c == '"' {
        FeedPair(r, Doubled(init));
      } else {
        FeedSnoc(r, Doubled(init), c);
      }
    }
  }

  lemma NothingDoubled()
    ensures Doubled([]) == []
  {
  }

  lemma {:induction false} FeedPlain(r: Reader, value: string)
    requires r.mode == FieldStart && value != [] && forall c | c in value :: !Special(c)
    ensures Feed(r, value) == Reader(Plain, r.rows, r.row, r.field + value)
  {
    var init, c := value[..|value| - 1], Last(value);
    assert forall d | d in init :: d in value;
    Associative(r.field, init, [c]);
    assert init + [c] == value;
    assert c in value;
    FeedSnoc(r, init, c);
    if init == [] {
      FeedNothing(r);
      assert r.field + [c] == r.field + value;
    } else {
      FeedPlain(r, init);
    }
    hide Feed;
  }

  /** The field has been read, and a comma or a line feed ends it. */
  predicate HasField(r: Reader, before: Reader, value: string) {
    && (r.mode == FieldStart || r.mode == Plain || r.mode == AfterQuote)
    && r.rows == before.rows && r.row == before.row && r.field == value
  }

  lemma FeedField(r: Reader, value: string)
    requires r.mode == FieldStart && r.field == []
    ensures HasField(Feed(r, CsvField(value)), r, value)
  {
    hide Trim;
    assert [] + value == value;
    if NeedsQuotes(value) {
      var open := r.(mode := Quoted);
      FeedOne(r, '"');
      FeedConcat(r, "\"", Doubled(value) + "\"");
      assert "\"" + Doubled(value) + "\"" == "\"" + (Doubled(value) + "\"");
      FeedDoubled(open, value);
      FeedConcat(open, Doubled(value), "\"");
      FeedOne(open.(field := value), '"');
    } else if value != [] {
      FeedPlain(r, value);
    }
  }

  lemma {:induction false} FeedRow(r: Reader, cells: Cells)
    requires r.mode == FieldStart && r.field == []
    ensures HasField(Feed(r, CsvRow(cells)), Reader(FieldStart, r.rows, r.row + cells[..|cells| - 1], []), Last(cells))
  {
    if |cells| == 1 {
      FeedField(r, cells[0]);
      assert r.row + cells[..0] == r.row;
    } else {
      var init := cells[..|cells| - 1];
      FeedRow(r, init);
      var mid := Feed(r, CsvRow(init));
      FeedConcat(r, CsvRow(init), ",");
      FeedOne(mid, ',');
      var next := Eat(mid, ',');
      assert r.row + init == r.row + init[..|init| - 1] + [Last(init)];
      FeedConcat(r, CsvRow(init) + ",", CsvField(Last(cells)));
      FeedField(next, Last(cells));
    }
  }

  lemma LinesSnoc(rows: seq<Cells>)
    requires rows != []
    ensures CsvLines(rows) == CsvLines(rows[..|rows| - 1]) + CsvRow(Last(rows)) + "\n"
  {
  }

  lemma FeedWholeRow(r: Reader, cells: Cells)
    requires r.mode == FieldStart && r.field == [] && r.row == []
    ensures Feed(r, CsvRow(cells) + "\n") == Reader(FieldStart, r.rows + [cells], [], [])
  {
    hide Feed, CsvRow;
    FeedRow(r, cells);
    FeedSnoc(r, CsvRow(cells), '\n');
    assert [] + cells[..|cells| - 1] + [Last(cells)] == cells;
  }

  lemma {:induction false} FeedLines(rows: seq<Cells>)
    ensures Feed(FRESH, CsvLines(rows)) == Reader(FieldStart, rows, [], [])
  {
    hide Feed, CsvLines, CsvRow;
    if rows == [] {
      FeedNothing(FRESH);
      assert CsvLines(rows) == [] by { NoLines(); }
    } else {
      var init, cells := rows[..|rows| - 1], Last(rows);
      var r := Reader(FieldStart, init, [], []);
      FeedLines(init);
      LinesSnoc(rows);
      Associative(CsvLines(init), CsvRow(cells), "\n");
      FeedConcat(FRESH, CsvLines(init), CsvRow(cells) + "\n");
      FeedWholeRow(r, cells);
      assert rows == init + [cells];
    }
  }

  lemma NoLines()
    ensures CsvLines([]) == []
  {
  }

  /** Round trip: whatever the cells hold, the export reads back as exactly the rows and cells it was made of. */
  lemma ReadsBack(rows: seq<Cells>)
    ensures Read(CsvLines(rows)) == Some(rows)
  {
    FeedLines(rows);
  }

  /** So two different logs never export to the same text. */
  lemma ExportIsInjective(rows: seq<Cells>, others: seq<Cells>)
    ensures CsvLines(rows) == CsvLines(others) ==> rows == others
  {
    ReadsBack(rows);
    ReadsBack(others);
  }

  // ---------------------------------------------------------------------------
  // The quotes are needed.
  // ---------------------------------------------------------------------------

  /** How many characters of text the reader has kept in cells. */
  function Width(cells: seq<string>): nat {
    if cells == [] then 0 else Width(cells[..|cells| - 1]) + |Last(cells)|
  }

  function TotalWidth(rows: seq<seq<string>>): nat {
    if rows == [] then 0 else TotalWidth(rows[..|rows| - 1]) + Width(Last(rows))
  }

  function Kept(r: Reader): nat {
    TotalWidth(r.rows) + Width(r.row) + |r.field|
  }

  lemma WidthSnoc(cells: seq<string>, cell: string)
    ensures Width(cells + [cell]) == Width(cells) + |cell|
  {
    assert (cells + [cell])[..|cells|] == cells;
  }

  lemma NoWidth()
    ensures Width([]) == 0 && TotalWidth([]) == 0
  {
  }

  lemma TotalWidthSnoc(rows: seq<seq<string>>, row: seq<string>)
    ensures TotalWidth(rows + [row]) == TotalWidth(rows) + Width(row)
  {
    assert (rows + [row])[..|rows|] == rows;
  }

  lemma EatKeeps(r: Reader, c: char)
    ensures Kept(Eat(r, c)) <= Kept(r) + 1
    ensures Special(c) && (r.mode == FieldStart || r.mode == Plain) ==> Kept(Eat(r, c)) == Kept(r)
    ensures c == '\n' && r.mode != Quoted ==> Kept(Eat(r, c)) == Kept(r)
  {
    hide Width, TotalWidth;
    WidthSnoc(r.row, r.field);
    TotalWidthSnoc(r.rows, r.row + [r.field]);
    NoWidth();
  }

  lemma {:induction false} FeedKeeps(r: Reader, text: string)
    ensures Kept(Feed(r, text)) <= Kept(r) + |text|
  {
    hide Eat, Kept;
    if text != [] {
      FeedKeeps(r, text[..|text| - 1]);
      EatKeeps(Feed(r, text[..|text| - 1]), Last(text));
    }
  }

  lemma {:induction false} FirstSpecial(value: string) returns (k: nat)
    requires exists c | c in value :: Special(c)
    ensures k < |value| && Special(value[k]) && forall c | c in value[..k] :: !Special(c)
  {
    var init := value[..|value| - 1];
    if c :| c in init && Special(c) {
      k := FirstSpecial(init);
      assert value[..k] == init[..k];
    } else {
      k := |value| - 1;
      assert value == init + [Last(value)];
    }
  }

  /**
   * Without quotes a value comes back as itself exactly when it holds no quote, comma, CR or LF: those
   * four, and only those, cannot be printed bare.
   */
  lemma BareReadsBackIff(value: string)
    ensures Read(value + "\n") == Some([[value]]) <==> !exists c | c in value :: Special(c)
  {
    hide Trim, Feed, Width, TotalWidth;
    FeedSnoc(FRESH, value, '\n');
    if exists c | c in value :: Special(c) {
      var k := FirstSpecial(value);
      var r := Feed(FRESH, value[..k]);
      FeedNothing(FRESH);
      if k > 0 {
        FeedPlain(FRESH, value[..k]);
      } else {
        assert value[..k] == [];
      }
      NoWidth();
      FeedKeeps(FRESH, value[..k]);
      FeedSnoc(FRESH, value[..k], value[k]);
      EatKeeps(r, value[k]);
      assert value == value[..k] + [value[k]] + value[k + 1..];
      FeedConcat(FRESH, value[..k] + [value[k]], value[k + 1..]);
      FeedKeeps(Eat(r, value[k]), value[k + 1..]);
      SingleWidth(value);
      EatKeeps(Feed(FRESH, value), '\n');
      TooLittleKept(value);
    } else {
      FeedNothing(FRESH);
      if value != [] {
        FeedPlain(FRESH, value);
        assert [] + value == value;
      }
      assert [] + [value] == [value] && [] + [[value]] == [[value]];
    }
  }

  lemma SingleWidth(value: string)
    ensures TotalWidth([[value]]) == |value|
  {
    assert [value][..0] == [] && [[value]][..0] == [];
    WidthSnoc([], value);
    TotalWidthSnoc([], [value]);
    assert [] + [value] == [value] && [] + [[value]] == [[value]];
  }

  lemma TooLittleKept(value: string)
    requires Kept(Feed(FRESH, value)) < |value|
    ensures Read(value + "\n") != Some([[value]])
  {
    hide Feed, Width, TotalWidth;
    var r := Feed(FRESH, value);
    FeedSnoc(FRESH, value, '\n');
    SingleWidth(value);
    NoWidth();
    EatKeeps(r, '\n');
  }

  /**
   * Quotes are put where they are needed and nowhere else: a value stays as it is exactly when it has none of the
   * four characters and no white space at either end, which a reader might trim.
   */
  lemma BareIff(value: string)
    ensures CsvField(value) == value <==>
            && (forall c | c in value :: c != '"' && c != ',' && c != '\n' && c != '\r')
            && (value == "" || (!IsSpace(value[0]) && !IsSpace(Last(value))))
  {
    DoubledLonger(value);
    TrimIff(value);
    hide Doubled, Trim;
  }

  lemma {:induction false} DoubledLonger(value: string)
    ensures |Doubled(value)| >= |value|
  {
    if value != [] {
      DoubledLonger(value[..|value| - 1]);
    }
  }

  lemma TrimIff(value: string)
    ensures value == Trim(value) <==> value == "" || (!IsSpace(value[0]) && !IsSpace(Last(value)))
  {
    if value != "" && !IsSpace(value[0]) {
      assert TrimStart(value) == value[0..] == value;
    }
  }
}
