/** The project table: the semicolon-separated export of its rows (cell
    sanitising, joining, the byte-order mark), the name of the exported file,
    and what the table shows on screen. */
module ProjectTable {
  import opened Wrappers
  import opened Text

  /** A cell value as the table receives it. Numbers are integers here. */
  datatype JsValue = Undefined | Null | Str(s: string) | Num(n: int)

  /** JavaScript truthiness of a value. */
  predicate Truthy(v: JsValue) {
    match v
    case Undefined => false
    case Null => false
    case Str(s) => s != ""
    case Num(n) => n != 0
  }

  /** A row of data: attribute name to value; a missing attribute is undefined. */
  type Item = map<string, JsValue>

  function Get(item: Item, key: string): JsValue {
    if key in item then item[key] else Undefined
  }

  /** A column: its header, the attribute it shows, and an optional render
      function that computes the value instead. */
  datatype Column = Column(header: string, accessor: string, render: Option<Item -> JsValue>)

  // ---------------------------------------------------------------------
  // Export

  /** `col.render ? col.render(item) : (item[col.accessor] || '')`: the
      fallback to `''` applies to the attribute only, not to a rendered value. */
  function ExportValue(col: Column, item: Item): JsValue {
    match col.render
    case Some(render) => render(item)
    case None => if Truthy(Get(item, col.accessor)) then Get(item, col.accessor) else Str("")
  }

  /** `s.replace(/;/g, ',').replace(/\n/g, ' ')`. */
  function Sanitize(s: string): (r: string)
    ensures |r| == |s|
    ensures ';' !in r && '\n' !in r
  {
    seq(|s|, i requires 0 <= i < |s| => if s[i] == ';' then ',' else if s[i] == '\n' then ' ' else s[i])
  }

  /** Sanitising changes only semicolons (to commas) and newlines (to
      spaces), so it leaves clean text alone and a second pass does nothing. */
  lemma SanitizeSpec(s: string)
    ensures forall i :: 0 <= i < |s| && s[i] != ';' && s[i] != '\n' ==> Sanitize(s)[i] == s[i]
    ensures forall i :: 0 <= i < |s| && s[i] == ';' ==> Sanitize(s)[i] == ','
    ensures forall i :: 0 <= i < |s| && s[i] == '\n' ==> Sanitize(s)[i] == ' '
    ensures ';' !in s && '\n' !in s ==> Sanitize(s) == s
    ensures Sanitize(Sanitize(s)) == Sanitize(s)
  {
  }

  /** The text a cell contributes to its line: strings sanitised, integers
      in decimal, and `null`/`undefined` as nothing (as `join` prints them). */
  function CellText(v: JsValue): string {
    match v
    case Undefined => ""
    case Null => ""
    case Str(s) => Sanitize(s)
    case Num(n) => IntToString(n)
  }

  /** No cell puts a separator into its line. */
  lemma CellTextClean(v: JsValue)
    ensures ';' !in CellText(v) && '\n' !in CellText(v)
  {
    if v.Num? {
      var n := v.n;
      var digits := NatToString(if n < 0 then -n else n);
      assert ';' !in digits && '\n' !in digits by {
        forall i | 0 <= i < |digits| ensures digits[i] != ';' && digits[i] != '\n' {
          assert IsDigit(digits[i]);
        }
      }
    }
  }

  /** The cells of one item's line. */
  function LineCells(columns: seq<Column>, item: Item): (cells: seq<string>)
    ensures |cells| == |columns|
  {
    seq(|columns|, j requires 0 <= j < |columns| => CellText(ExportValue(columns[j], item)))
  }

  function HeaderLine(columns: seq<Column>): string {
    Join(seq(|columns|, j requires 0 <= j < |columns| => columns[j].header), ";")
  }

  function DataLines(columns: seq<Column>, data: seq<Item>): (lines: seq<string>)
    ensures |lines| == |data|
  {
    seq(|data|, i requires 0 <= i < |data| => Join(LineCells(columns, data[i]), ";"))
  }

  const BOM: string := "\U{FEFF}"

  /** The exported text of a non-empty table. */
  function Csv(columns: seq<Column>, data: seq<Item>): string {
    BOM + HeaderLine(columns) + "\n" + Join(DataLines(columns, data), "\n")
  }

  /** `handleExport`: nothing without data; otherwise the text to download. */
  function Export(columns: seq<Column>, data: Option<seq<Item>>): (r: Option<string>)
    ensures r.None? <==> data.None? || |data.value| == 0
  {
    if data.None? || |data.value| == 0 then None else Some(Csv(columns, data.value))
  }

  /** Read back, the export is the mark, then the unsanitised header line,
      then one line per item whose fields are exactly that item's cells. With
      at least one column and headers free of newlines, splitting the text
      after the mark on newlines gives the header line and one line per item,
      and each item line splits on `;` into one field per column. */
  lemma ExportShape(columns: seq<Column>, data: seq<Item>)
    requires |data| > 0 && |columns| > 0
    requires forall j :: 0 <= j < |columns| ==> '\n' !in columns[j].header
    ensures Export(columns, Some(data)).Some?
    ensures var text := Export(columns, Some(data)).value;
      && text[..1] == BOM
      && Split(text[1..], '\n') == [HeaderLine(columns)] + DataLines(columns, data)
      && forall i :: 0 <= i < |data| ==>
           Split(DataLines(columns, data)[i], ';') == LineCells(columns, data[i])
  {
    var lines := DataLines(columns, data);
    forall i | 0 <= i < |data| ensures Split(lines[i], ';') == LineCells(columns, data[i]) {
      LineShape(columns, data[i]);
    }
    NoNewlineInLines(columns, data);
    CsvLines(columns, data);
    SplitJoin([HeaderLine(columns)] + lines, '\n');
  }

  /** The export is the mark followed by all lines joined by newlines. */
  lemma CsvLines(columns: seq<Column>, data: seq<Item>)
    requires |data| > 0
    ensures Csv(columns, data)[..1] == BOM
    ensures Csv(columns, data)[1..] == Join([HeaderLine(columns)] + DataLines(columns, data), "\n")
  {
    var lines := DataLines(columns, data);
    var all := [HeaderLine(columns)] + lines;
    var body := Join(all, "\n");
    assert body == HeaderLine(columns) + "\n" + Join(lines, "\n") by {
      assert all[1..] == lines;
    }
    var text := Csv(columns, data);
    assert text == BOM + body;
  }

  /** An item's line splits back into its cells and holds no newline. */
  lemma LineShape(columns: seq<Column>, item: Item)
    requires |columns| > 0
    ensures Split(Join(LineCells(columns, item), ";"), ';') == LineCells(columns, item)
    ensures '\n' !in Join(LineCells(columns, item), ";")
  {
    var cells := LineCells(columns, item);
    forall j | 0 <= j < |cells| ensures ';' !in cells[j] && '\n' !in cells[j] {
      CellTextClean(ExportValue(columns[j], item));
    }
    SplitJoin(cells, ';');
    JoinAvoids(cells, ";", '\n');
  }

  /** No line of the export, header line included, holds a newline. */
  lemma NoNewlineInLines(columns: seq<Column>, data: seq<Item>)
    requires |columns| > 0
    requires forall j :: 0 <= j < |columns| ==> '\n' !in columns[j].header
    ensures forall k :: 0 <= k < |data| + 1 ==> '\n' !in ([HeaderLine(columns)] + DataLines(columns, data))[k]
  {
    var headers := seq(|columns|, j requires 0 <= j < |columns| => columns[j].header);
    JoinAvoids(headers, ";", '\n');
    var lines := DataLines(columns, data);
    var all := [HeaderLine(columns)] + lines;
    forall k | 0 <= k < |all| ensures '\n' !in all[k] {
      if k > 0 {
        assert all[k] == lines[k - 1] == Join(LineCells(columns, data[k - 1]), ";");
        LineShape(columns, data[k - 1]);
      }
    }
  }

  /** A falsy attribute (0 included) exports as an empty cell, but a render
      function's result is taken as it is, so a rendered 0 exports as `0`. */
  lemma FalsyAttributeExportsEmpty(col: Column, item: Item)
    ensures col.render.None? && !Truthy(Get(item, col.accessor)) ==> CellText(ExportValue(col, item)) == ""
    ensures col.render.Some? && col.render.value(item) == Num(0) ==> CellText(ExportValue(col, item)) == "0"
  {
  }

  // ---------------------------------------------------------------------
  // File name

  /** `s.replace(/\s+/g, '_')`: every run of whitespace becomes one `_`. */
  function Underscored(s: string): (r: string)
    decreases |s|
  {
    if |s| == 0 then ""
    else if IsWhitespace(s[0]) then "_" + Underscored(TrimStart(s[1..]))
    else [s[0]] + Underscored(s[1..])
  }

  /** The name the export is saved under: the title with its whitespace
      runs replaced, then `_export.csv`; it holds no whitespace. */
  function FileName(title: string): (f: string)
    ensures |f| >= |EXPORT_SUFFIX| && f[|f| - |EXPORT_SUFFIX|..] == EXPORT_SUFFIX
    ensures forall i :: 0 <= i < |f| ==> !IsWhitespace(f[i])
  {
    UnderscoredSpec(title);
    SuffixHasNoWhitespace();
    NoWhitespaceAppend(Underscored(title), EXPORT_SUFFIX);
    Underscored(title) + EXPORT_SUFFIX
  }

  const EXPORT_SUFFIX: string := "_export.csv"

  /** The fixed ending of the name holds no whitespace. */
  lemma SuffixHasNoWhitespace()
    ensures forall i :: 0 <= i < |EXPORT_SUFFIX| ==> !IsWhitespace(EXPORT_SUFFIX[i])
  {
  }

  /** Two texts without whitespace make one without whitespace. */
  lemma NoWhitespaceAppend(a: string, b: string)
    requires forall i :: 0 <= i < |a| ==> !IsWhitespace(a[i])
    requires forall i :: 0 <= i < |b| ==> !IsWhitespace(b[i])
    ensures forall i :: 0 <= i < |a + b| ==> !IsWhitespace((a + b)[i])
  {
    forall i | 0 <= i < |a + b| ensures !IsWhitespace((a + b)[i]) {
      if i >= |a| {
        assert (a + b)[i] == b[i - |a|];
      }
    }
  }

  /** The file name has no whitespace, and a title without whitespace is kept. */
  lemma {:induction false} UnderscoredSpec(s: string)
    ensures forall i :: 0 <= i < |Underscored(s)| ==> !IsWhitespace(Underscored(s)[i])
    ensures (forall i :: 0 <= i < |s| ==> !IsWhitespace(s[i])) ==> Underscored(s) == s
    decreases |s|
  {
    if |s| > 0 {
      if IsWhitespace(s[0]) {
        UnderscoredSpec(TrimStart(s[1..]));
      } else {
        UnderscoredSpec(s[1..]);
      }
    }
  }

  /** Replacing is idempotent. */
  lemma UnderscoredIdempotent(s: string)
    ensures Underscored(Underscored(s)) == Underscored(s)
  {
    UnderscoredSpec(s);
    UnderscoredSpec(Underscored(s));
  }

  /** A whole run of whitespace, however long, becomes a single `_`. */
  lemma {:induction false} RunBecomesOne(w: string, s: string)
    requires |w| > 0 && forall i :: 0 <= i < |w| ==> IsWhitespace(w[i])
    requires |s| == 0 || !IsWhitespace(s[0])
    ensures Underscored(w + s) == "_" + Underscored(s)
  {
    assert (w + s)[1..] == w[1..] + s;
    TrimStartRun(w[1..], s);
  }

  lemma {:induction false} TrimStartRun(w: string, s: string)
    requires forall i :: 0 <= i < |w| ==> IsWhitespace(w[i])
    requires |s| == 0 || !IsWhitespace(s[0])
    ensures TrimStart(w + s) == s
  {
    if |w| == 0 {
      assert w + s == s;
    } else {
      assert (w + s)[1..] == w[1..] + s;
      TrimStartRun(w[1..], s);
    }
  }

  /** Text without whitespace passes through in front of the rest. */
  lemma {:induction false} UnderscoredPrefix(a: string, b: string)
    requires forall i :: 0 <= i < |a| ==> !IsWhitespace(a[i])
    ensures Underscored(a + b) == a + Underscored(b)
  {
    if |a| == 0 {
      assert a + b == b;
    } else {
      assert (a + b)[1..] == a[1..] + b;
      UnderscoredPrefix(a[1..], b);
    }
  }

  // ---------------------------------------------------------------------
  // On screen

  /** `col.render ? col.render(item) : item[col.accessor]`. */
  function ScreenValue(col: Column, item: Item): JsValue {
    match col.render
    case Some(render) => render(item)
    case None => Get(item, col.accessor)
  }

  /** What a cell shows: `null` and `undefined` show as nothing, anything else
      (0 and the empty string included) as itself. */
  function Shown(v: JsValue): JsValue {
    if v.Null? || v.Undefined? then Str("") else v
  }

  /** A row of the table body. */
  datatype BodyRow =
    | DataRow(number: nat, rowClass: string, cells: seq<JsValue>)
    | MessageRow(colSpan: nat, message: string)

  /** The table body: one numbered row per item, or a single message row
      across all columns and the number column when there is no data. */
  function Body(columns: seq<Column>, data: seq<Item>, rowClass: Option<Item -> string>, emptyMessage: string): (rows: seq<BodyRow>)
    ensures |rows| == if |data| == 0 then 1 else |data|
  {
    if |data| == 0 then [MessageRow(|columns| + 1, emptyMessage)]
    else (seq(|data|, i requires 0 <= i < |data| =>
      DataRow(i + 1, if rowClass.Some? then rowClass.value(data[i]) else "",
        seq(|columns|, j requires 0 <= j < |columns| => Shown(ScreenValue(columns[j], data[i]))))))
  }

  /** The body has a row per item numbered from 1 with a cell per column, or
      exactly one message row spanning one more than the columns. Each row of
      an item carries the class the row-class function gives that item (none
      without one), and each cell shows what its column gives for the item,
      so no cell is ever `null` or `undefined`. */
  lemma BodySpec(columns: seq<Column>, data: seq<Item>, rowClass: Option<Item -> string>, emptyMessage: string)
    ensures var rows := Body(columns, data, rowClass, emptyMessage);
      && (|data| == 0 ==> rows == [MessageRow(|columns| + 1, emptyMessage)])
      && (|data| > 0 ==> |rows| == |data| && forall i :: 0 <= i < |data| ==>
            rows[i].DataRow? && rows[i].number == i + 1 && |rows[i].cells| == |columns|
            && rows[i].rowClass == (if rowClass.Some? then rowClass.value(data[i]) else "")
            && forall j :: 0 <= j < |columns| ==>
                 rows[i].cells[j] == Shown(ScreenValue(columns[j], data[i]))
                 && !rows[i].cells[j].Null? && !rows[i].cells[j].Undefined?)
  {
  }

  /** On screen a 0 attribute shows as 0 where the export leaves the cell
      empty; `null` and `undefined` are blank in both. */
  lemma ScreenAndExportDiffer(col: Column, item: Item)
    requires col.render.None?
    ensures Get(item, col.accessor) == Num(0) ==>
      Shown(ScreenValue(col, item)) == Num(0) && CellText(ExportValue(col, item)) == ""
    ensures Get(item, col.accessor).Null? || Get(item, col.accessor).Undefined? ==>
      Shown(ScreenValue(col, item)) == Str("") && CellText(ExportValue(col, item)) == ""
  {
  }
}
