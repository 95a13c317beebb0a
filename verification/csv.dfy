/**
 * CSV export and import of entries (src/utils/csvUtils.ts).
 *
 * JavaScript's number-to-text conversion (what `Array.prototype.join`
 * writes for a number) and `Number(text)` are parameters: `show` and
 * `parse`, where `parse` answers None for NaN.
 */
module Csv {
  import opened Wrappers
  import opened Types
  import opened Text

  /** CSV_HEADERS: the exported columns, in order. */
  const CsvHeaders: seq<string> := [
    "pseudo", "color", "constructivisme", "essentialisme", "justiceRehabilitative", "justicePunitive",
    "progressisme", "conservatisme", "internationalisme", "nationalisme", "communisme", "capitalisme",
    "regulation", "laissezFaire", "ecologie", "productivisme", "revolution", "reformisme"
  ]

  /** CSV_HEADERS is pseudo, color, then every key identifier in declaration order. */
  lemma CsvHeadersLayout()
    ensures |CsvHeaders| == 18 && CsvHeaders[0] == "pseudo" && CsvHeaders[1] == "color"
    ensures forall j :: 0 <= j < 16 ==> CsvHeaders[j + 2] == KeyName(AllKeys[j])
  {
  }

  /** No header is listed twice. */
  lemma CsvHeadersDistinct()
    ensures forall i, j :: 0 <= i < j < |CsvHeaders| ==> CsvHeaders[i] != CsvHeaders[j]
  {
    CsvHeadersLayout();
    AllKeysDistinct();
    forall i, j | 0 <= i < j < |CsvHeaders| ensures CsvHeaders[i] != CsvHeaders[j] {
      if 2 <= i {
        KeyNameRoundTrip(AllKeys[i - 2]);
        KeyNameRoundTrip(AllKeys[j - 2]);
      } else if 2 <= j {
        KeyNameRoundTrip(AllKeys[j - 2]);
        assert KeyOfName("pseudo") == None && KeyOfName("color") == None;
      }
    }
  }

  // ---------------------------------------------------------------- export

  /** The text `Array.prototype.join` writes for a score: the number via `show`, null as "". */
  function ScoreText(v: Option<real>, show: real -> string): string {
    match v
    case Some(x) => show(x)
    case None => ""
  }

  /** `row[header]` as `join` writes it, for one exported column. */
  function FieldText(e: Entry, header: string, show: real -> string): string {
    if header == "pseudo" then e.pseudo
    else if header == "color" then e.color
    else match KeyOfName(header)
      case Some(k) => ScoreText(e.Score(k), show)
      case None => ""
  }

  /** The exported fields of one entry, in CSV_HEADERS order. */
  function RowFields(e: Entry, show: real -> string): (fields: seq<string>)
    ensures |fields| == |CsvHeaders|
  {
    seq(|CsvHeaders|, i requires 0 <= i < |CsvHeaders| => FieldText(e, CsvHeaders[i], show))
  }

  /** One exported data line. */
  function RowLine(e: Entry, show: real -> string): string {
    Join(RowFields(e, show), ',')
  }

  /** The exported lines: the header line, then one line per entry. */
  function ExportLines(es: seq<Entry>, show: real -> string): (lines: seq<string>)
    ensures |lines| == |es| + 1
  {
    [Join(CsvHeaders, ',')] + RowLines(es, show)
  }

  /** One exported data line per entry, in order. */
  function RowLines(es: seq<Entry>, show: real -> string): (lines: seq<string>)
    ensures |lines| == |es|
  {
    seq(|es|, i requires 0 <= i < |es| => RowLine(es[i], show))
  }

  /** The content string exportToCSV builds: the lines joined by '\n'. */
  function ExportText(es: seq<Entry>, show: real -> string): string {
    Join(ExportLines(es, show), '\n')
  }

  /** An exported row holds pseudo, color, then every score in key order. */
  lemma RowFieldsLayout(e: Entry, show: real -> string)
    ensures RowFields(e, show)[0] == e.pseudo && RowFields(e, show)[1] == e.color
    ensures forall j :: 0 <= j < 16 ==> RowFields(e, show)[j + 2] == ScoreText(e.scores[j], show)
  {
    CsvHeadersLayout();
    AllKeysDistinct();
    forall j | 0 <= j < 16 ensures RowFields(e, show)[j + 2] == ScoreText(e.scores[j], show) {
      var k := AllKeys[j];
      KeyNameRoundTrip(k);
      assert KeyName(k) != "pseudo" && KeyName(k) != "color" by {
        assert KeyOfName("pseudo") == None && KeyOfName("color") == None;
      }
    }
  }

  /** Line i + 1 of the export is the line of entry i. */
  lemma ExportLineAt(es: seq<Entry>, show: real -> string, i: nat)
    requires i < |es|
    ensures ExportLines(es, show)[i + 1] == RowLine(es[i], show)
  {
  }

  /** After the header line come the data lines. */
  lemma ExportLinesParts(es: seq<Entry>, show: real -> string)
    ensures ExportLines(es, show)[0] == Join(CsvHeaders, ',')
    ensures ExportLines(es, show)[1..] == RowLines(es, show)
  {
  }

  /** A field the CSV layout carries unchanged: no comma, no newline, no whitespace at either end. */
  predicate IsPlainField(s: string) {
    ',' !in s && '\n' !in s && (s == [] || (!IsSpace(s[0]) && !IsSpace(s[|s| - 1])))
  }

  /** Number formatting that writes plain, non-empty text. */
  ghost predicate ShowIsPlain(show: real -> string) {
    forall x :: IsPlainField(show(x)) && show(x) != ""
  }

  /** Number parsing that reads back what `show` wrote. */
  ghost predicate ParseUndoesShow(show: real -> string, parse: string -> Option<real>) {
    forall x :: parse(show(x)) == Some(x)
  }

  /** An entry whose label and colour survive the CSV layout. */
  predicate HasPlainText(e: Entry) {
    IsPlainField(e.pseudo) && IsPlainField(e.color)
  }

  /** A name that starts and ends with a lower-case letter and holds no comma or newline is plain. */
  lemma LetterBoundedIsPlain(h: string)
    requires h != [] && 'a' <= h[0] <= 'z' && 'a' <= h[|h| - 1] <= 'z'
    requires ',' !in h && '\n' !in h
    ensures IsPlainField(h)
  {
  }

  /** The header names are plain, non-empty fields (no whitespace, comma or newline). */
  lemma CsvHeadersArePlain()
    ensures forall i :: 0 <= i < |CsvHeaders| ==> IsPlainField(CsvHeaders[i]) && CsvHeaders[i] != ""
  {
    CsvHeadersLayout();
    forall i | 0 <= i < |CsvHeaders| ensures IsPlainField(CsvHeaders[i]) && CsvHeaders[i] != "" {
      if i == 0 {
        LetterBoundedIsPlain("pseudo");
      } else if i == 1 {
        LetterBoundedIsPlain("color");
      } else {
        KeyNameIsPlain(AllKeys[i - 2]);
      }
    }
  }

  /** What holds of every position of a list holds of every member of it. */
  lemma PlainMembers(parts: seq<string>)
    requires forall i :: 0 <= i < |parts| ==> IsPlainField(parts[i]) && parts[i] != ""
    ensures forall p :: p in parts ==> IsPlainField(p) && p != ""
  {
    forall p | p in parts ensures IsPlainField(p) && p != "" {
      var i :| 0 <= i < |parts| && parts[i] == p;
    }
  }

  /** Every key identifier is a plain field. */
  lemma KeyNameIsPlain(k: Key)
    ensures IsPlainField(KeyName(k)) && KeyName(k) != ""
  {
    if Index(k) < 4 {
      FirstKeyNamesArePlain(k);
    } else if Index(k) < 8 {
      SecondKeyNamesArePlain(k);
    } else if Index(k) < 12 {
      ThirdKeyNamesArePlain(k);
    } else {
      FourthKeyNamesArePlain(k);
    }
  }

  lemma FirstKeyNamesArePlain(k: Key)
    requires 0 <= Index(k) < 4
    ensures IsPlainField(KeyName(k)) && KeyName(k) != ""
  {
    match k
    case Constructivisme => LetterBoundedIsPlain("constructivisme");
    case Essentialisme => LetterBoundedIsPlain("essentialisme");
    case JusticeRehabilitative => LetterBoundedIsPlain("justiceRehabilitative");
    case JusticePunitive => LetterBoundedIsPlain("justicePunitive");
    case _ => assert false;
  }

  lemma SecondKeyNamesArePlain(k: Key)
    requires 4 <= Index(k) < 8
    ensures IsPlainField(KeyName(k)) && KeyName(k) != ""
  {
    match k
    case Progressisme => LetterBoundedIsPlain("progressisme");
    case Conservatisme => LetterBoundedIsPlain("conservatisme");
    case Internationalisme => LetterBoundedIsPlain("internationalisme");
    case Nationalisme => LetterBoundedIsPlain("nationalisme");
    case _ => assert false;
  }

  lemma ThirdKeyNamesArePlain(k: Key)
    requires 8 <= Index(k) < 12
    ensures IsPlainField(KeyName(k)) && KeyName(k) != ""
  {
    match k
    case Communisme => LetterBoundedIsPlain("communisme");
    case Capitalisme => LetterBoundedIsPlain("capitalisme");
    case Regulation => LetterBoundedIsPlain("regulation");
    case LaissezFaire => LetterBoundedIsPlain("laissezFaire");
    case _ => assert false;
  }

  lemma FourthKeyNamesArePlain(k: Key)
    requires 12 <= Index(k) < 16
    ensures IsPlainField(KeyName(k)) && KeyName(k) != ""
  {
    match k
    case Ecologie => LetterBoundedIsPlain("ecologie");
    case Productivisme => LetterBoundedIsPlain("productivisme");
    case Revolution => LetterBoundedIsPlain("revolution");
    case Reformisme => LetterBoundedIsPlain("reformisme");
    case _ => assert false;
  }

  /** With plain text and plain number formatting, every exported field is plain. */
  lemma RowFieldsArePlain(e: Entry, show: real -> string)
    requires ShowIsPlain(show) && HasPlainText(e)
    ensures forall f :: f in RowFields(e, show) ==> IsPlainField(f)
  {
    var fields := RowFields(e, show);
    RowFieldsLayout(e, show);
    forall f | f in fields ensures IsPlainField(f) {
      var i :| 0 <= i < |fields| && fields[i] == f;
      if 2 <= i {
        assert f == ScoreText(e.scores[i - 2], show);
      }
    }
  }

  /** The header line holds no newline. */
  lemma HeaderLineHasNoNewline()
    ensures '\n' !in Join(CsvHeaders, ',')
  {
    CsvHeadersArePlain();
    PlainMembers(CsvHeaders);
    JoinAvoids(CsvHeaders, ',', '\n');
  }

  /** A data line of an entry with plain text holds no newline. */
  lemma RowLineHasNoNewline(e: Entry, show: real -> string)
    requires ShowIsPlain(show) && HasPlainText(e)
    ensures '\n' !in RowLine(e, show)
  {
    RowFieldsArePlain(e, show);
    JoinAvoids(RowFields(e, show), ',', '\n');
  }

  /** No exported line holds a newline. */
  lemma ExportLinesHaveNoNewline(es: seq<Entry>, show: real -> string)
    requires ShowIsPlain(show)
    requires forall e :: e in es ==> HasPlainText(e)
    ensures forall l :: l in ExportLines(es, show) ==> '\n' !in l
  {
    var lines := ExportLines(es, show);
    forall l | l in lines ensures '\n' !in l {
      var i :| 0 <= i < |lines| && lines[i] == l;
      if i == 0 {
        ExportLinesParts(es, show);
        HeaderLineHasNoNewline();
      } else {
        assert es[i - 1] in es;
        ExportLineAt(es, show, i - 1);
        RowLineHasNoNewline(es[i - 1], show);
      }
    }
  }

  /**
   * The export text is the CSV_HEADERS line followed by one line per entry,
   * each holding the entry's 18 fields in CSV_HEADERS order: splitting it on
   * '\n' and each line on ',' recovers exactly these pieces.
   */
  lemma ExportLayout(es: seq<Entry>, show: real -> string)
    requires ShowIsPlain(show)
    requires forall e :: e in es ==> HasPlainText(e)
    ensures Split(ExportText(es, show), '\n') == ExportLines(es, show)
    ensures Split(ExportLines(es, show)[0], ',') == CsvHeaders
    ensures forall i :: 0 <= i < |es| ==> Split(ExportLines(es, show)[i + 1], ',') == RowFields(es[i], show)
  {
    forall i | 0 <= i < |es| ensures Split(ExportLines(es, show)[i + 1], ',') == RowFields(es[i], show) {
      assert es[i] in es;
      ExportLineAt(es, show, i);
      RowFieldsArePlain(es[i], show);
      SplitJoin(RowFields(es[i], show), ',');
    }
    CsvHeadersArePlain();
    PlainMembers(CsvHeaders);
    SplitJoin(CsvHeaders, ',');
    ExportLinesHaveNoNewline(es, show);
    SplitJoin(ExportLines(es, show), '\n');
  }

  // ---------------------------------------------------------------- import

  /** Why importFromCSV calls onError (both reasons reach the same callback). */
  datatype ImportError = MissingHeader | NoRows

  /** `values[i]`: None stands for JavaScript's undefined past the end of the line. */
  function Cell(values: seq<string>, i: nat): Option<string> {
    if i < |values| then Some(values[i]) else None
  }

  /** A numeric field: 0 for an empty, missing or non-numeric cell, otherwise its value. */
  function NumberCell(v: Option<string>, parse: string -> Option<real>): real {
    match v
    case None => 0.0
    case Some(s) => if s == "" then 0.0 else parse(s).GetOr(0.0)
  }

  /** A text field; a missing cell (undefined in the source) is stored as "". */
  function TextCell(v: Option<string>): string {
    v.GetOr("")
  }

  /** The position of the last header equal to `name`: the column whose value `forEach` leaves. */
  function LastIndex(headers: seq<string>, name: string): Option<nat> {
    if headers == [] then None
    else if headers[|headers| - 1] == name then Some(|headers| - 1)
    else LastIndex(headers[..|headers| - 1], name)
  }

  /** LastIndex finds the last column called `name`, and finds nothing exactly when there is none. */
  lemma {:induction false} LastIndexSpec(headers: seq<string>, name: string)
    ensures var r := LastIndex(headers, name);
      && (r.Some? ==> r.value < |headers| && headers[r.value] == name)
      && (r.Some? ==> forall j :: r.value < j < |headers| ==> headers[j] != name)
      && (r.None? <==> name !in headers)
  {
    if headers != [] && headers[|headers| - 1] != name {
      var init := headers[..|headers| - 1];
      LastIndexSpec(init, name);
      assert headers == init + [headers[|headers| - 1]];
    }
  }

  /** The cell of the last column called `name`, if there is one. */
  function ColumnCell(headers: seq<string>, values: seq<string>, name: string): Option<string> {
    match LastIndex(headers, name)
    case None => None
    case Some(i) => Cell(values, i)
  }

  /** Sixteen null scores: the scores of `{ id }` before any field is set. */
  const NullScores: Scores := [None, None, None, None, None, None, None, None,
                               None, None, None, None, None, None, None, None]

  /**
   * The entry built from one data line: each field from the LAST column
   * named after it, `id` from the caller and never from the file, and fields
   * without a column left unset.
   */
  function ImportedEntry(headers: seq<string>, values: seq<string>, id: int, parse: string -> Option<real>): Entry {
    Entry(id,
          TextCell(ColumnCell(headers, values, "pseudo")),
          TextCell(ColumnCell(headers, values, "color")),
          ImportedScores(headers, values, parse))
  }

  /** The scores of an imported entry: each key from the last column named after it. */
  function ImportedScores(headers: seq<string>, values: seq<string>, parse: string -> Option<real>): Scores {
    seq(16, j requires 0 <= j < 16 => ScoreCell(headers, values, AllKeys[j], parse))
  }

  /** The score of key k read from its last column; None when there is no such column. */
  function ScoreCell(headers: seq<string>, values: seq<string>, k: Key, parse: string -> Option<real>): Option<real> {
    match LastIndex(headers, KeyName(k))
    case None => None
    case Some(i) => Some(NumberCell(Cell(values, i), parse))
  }

  /** One step of `headers.forEach`: the assignment for the column `header`. */
  function AssignField(e: Entry, header: string, cell: Option<string>, parse: string -> Option<real>): Entry {
    if header == "pseudo" then e.(pseudo := TextCell(cell))
    else if header == "color" then e.(color := TextCell(cell))
    else if header == "id" then e
    else match KeyOfName(header)
      case Some(k) => e.(scores := e.scores[Index(k) := Some(NumberCell(cell, parse))])
      case None => e
  }

  /** Taking one more column into account is one more assignment. */
  lemma ImportedEntryStep(headers: seq<string>, values: seq<string>, id: int, parse: string -> Option<real>, i: nat)
    requires i < |headers|
    ensures ImportedEntry(headers[..i + 1], values, id, parse)
         == AssignField(ImportedEntry(headers[..i], values, id, parse), headers[i], Cell(values, i), parse)
  {
    var after := ImportedEntry(headers[..i + 1], values, id, parse);
    var stepped := AssignField(ImportedEntry(headers[..i], values, id, parse), headers[i], Cell(values, i), parse);
    TextCellStep(headers, values, id, parse, i);
    forall j | 0 <= j < 16 ensures after.scores[j] == stepped.scores[j] {
      ScoreCellStep(headers, values, id, parse, i, j);
    }
  }

  /** The label and the colour after one more column. */
  lemma TextCellStep(headers: seq<string>, values: seq<string>, id: int, parse: string -> Option<real>, i: nat)
    requires i < |headers|
    ensures var after := ImportedEntry(headers[..i + 1], values, id, parse);
      var stepped := AssignField(ImportedEntry(headers[..i], values, id, parse), headers[i], Cell(values, i), parse);
      after.id == stepped.id && after.pseudo == stepped.pseudo && after.color == stepped.color
  {
    assert headers[..i + 1][..i] == headers[..i];
    assert KeyOfName("pseudo") == None && KeyOfName("color") == None && KeyOfName("id") == None;
  }

  /** The score of key j after one more column. */
  lemma ScoreCellStep(headers: seq<string>, values: seq<string>, id: int, parse: string -> Option<real>, i: nat, j: nat)
    requires i < |headers| && j < 16
    ensures ImportedEntry(headers[..i + 1], values, id, parse).scores[j]
         == AssignField(ImportedEntry(headers[..i], values, id, parse), headers[i], Cell(values, i), parse).scores[j]
  {
    assert headers[..i + 1][..i] == headers[..i];
    AssignFieldScore(ImportedEntry(headers[..i], values, id, parse), headers[i], Cell(values, i), parse, j);
  }

  /** One assignment sets the score of key j exactly when the column is named after key j. */
  lemma AssignFieldScore(e: Entry, header: string, cell: Option<string>, parse: string -> Option<real>, j: nat)
    requires j < 16
    ensures AssignField(e, header, cell, parse).scores[j]
         == if header == KeyName(AllKeys[j]) then Some(NumberCell(cell, parse)) else e.scores[j]
  {
    KeyNameRoundTrip(AllKeys[j]);
    if header == "pseudo" || header == "color" || header == "id" {
      assert KeyOfName("pseudo") == None && KeyOfName("color") == None && KeyOfName("id") == None;
    } else {
      match KeyOfName(header)
      case Some(k) =>
        assert Index(AllKeys[j]) == j by {
          AllKeysDistinct();
        }
      case None =>
    }
  }

  /**
   * The `headers.forEach` loop of the import callback: starting from
   * `{ id }`, assign each column in turn. Later columns overwrite earlier ones
   * of the same name, so the result is the entry ImportedEntry describes.
   */
  method BuildEntry(headers: seq<string>, values: seq<string>, id: int, parse: string -> Option<real>)
    returns (entry: Entry)
    ensures entry == ImportedEntry(headers, values, id, parse)
  {
    entry := Entry(id, "", "", NullScores);
    var i := 0;
    while i < |headers|
      invariant 0 <= i <= |headers|
      invariant entry == ImportedEntry(headers[..i], values, id, parse)
    {
      ImportedEntryStep(headers, values, id, parse, i);
      entry := AssignField(entry, headers[i], Cell(values, i), parse);
      i := i + 1;
    }
    assert headers[..|headers|] == headers;
  }

  /** `CSV_HEADERS.every(h => headers.includes(h))`. */
  predicate HasAllHeaders(headers: seq<string>) {
    forall h :: h in CsvHeaders ==> h in headers
  }

  /** The trimmed fields of one line. */
  function Fields(line: string): seq<string> {
    TrimAll(Split(line, ','))
  }

  /** The import callback on the lines of the file. */
  function ImportLines(lines: seq<string>, base: int, parse: string -> Option<real>): Result<seq<Entry>, ImportError>
    requires |lines| >= 1
  {
    var headers := Fields(lines[0]);
    if !HasAllHeaders(headers) then Err(MissingHeader)
    else
      var rows := NonBlank(lines[1..]);
      if |rows| == 0 then Err(NoRows)
      else Ok(seq(|rows|, i requires 0 <= i < |rows| => ImportedEntry(headers, Fields(rows[i]), base + i, parse)))
  }

  /** The `onload` callback of importFromCSV on the text read; `base` is the `Date.now()` reading. */
  function ImportCsv(text: string, base: int, parse: string -> Option<real>): Result<seq<Entry>, ImportError> {
    ImportLines(Split(text, '\n'), base, parse)
  }

  /**
   * Import fails exactly when a CSV header is missing from the first line or
   * no non-blank line follows it; otherwise it yields one entry per non-blank
   * line, in file order, with ids base, base+1, ... that are distinct and
   * increasing whatever the file's own `id` column says.
   */
  lemma ImportOutcome(lines: seq<string>, base: int, parse: string -> Option<real>)
    requires |lines| >= 1
    ensures var r := ImportLines(lines, base, parse);
      && (r == Err(MissingHeader) <==> !HasAllHeaders(Fields(lines[0])))
      && (r == Err(NoRows) <==> HasAllHeaders(Fields(lines[0])) && forall l :: l in lines[1..] ==> IsBlank(l))
      && (r.Ok? ==> |r.value| == |NonBlank(lines[1..])| > 0
                    && (forall i :: 0 <= i < |r.value| ==> r.value[i].id == base + i)
                    && (forall i, j :: 0 <= i < j < |r.value| ==> r.value[i].id < r.value[j].id))
  {
    var rows := NonBlank(lines[1..]);
    if |rows| == 0 {
      forall l | l in lines[1..] ensures IsBlank(l) {
        NonBlankMembers(lines[1..], l);
      }
    } else {
      assert rows[0] in rows;
      NonBlankMembers(lines[1..], rows[0]);
    }
  }

  /** A blank line anywhere after the header changes nothing. */
  lemma ImportSkipsBlankLine(lines: seq<string>, k: nat, blank: string, base: int, parse: string -> Option<real>)
    requires 1 <= k <= |lines|
    requires IsBlank(blank)
    ensures ImportLines(lines[..k] + [blank] + lines[k..], base, parse) == ImportLines(lines, base, parse)
  {
    var longer := lines[..k] + [blank] + lines[k..];
    assert longer[0] == lines[0];
    assert longer[1..] == lines[1..k] + [blank] + lines[k..];
    assert lines[1..] == lines[1..k] + lines[k..];
    NonBlankAppend(lines[1..k] + [blank], lines[k..]);
    NonBlankAppend(lines[1..k], [blank]);
    NonBlankAppend(lines[1..k], lines[k..]);
    TrimEmptyIffBlank(blank);
    assert NonBlank([blank]) == [];
    assert NonBlank(lines[1..k]) + [] == NonBlank(lines[1..k]);
  }

  /** A null score comes back from a CSV round trip as 0. */
  function ZeroNulls(s: Scores): Scores {
    seq(16, j requires 0 <= j < 16 => Some(NumberOf(s[j])))
  }

  /** The entry an exported entry becomes when imported with id `id`. */
  function Reimported(e: Entry, id: int): Entry {
    Entry(id, e.pseudo, e.color, ZeroNulls(e.scores))
  }

  /** The header line of an export is read back as exactly CSV_HEADERS. */
  lemma ExportedHeaderFields(es: seq<Entry>, show: real -> string)
    requires ShowIsPlain(show)
    requires forall e :: e in es ==> HasPlainText(e)
    ensures Fields(ExportLines(es, show)[0]) == CsvHeaders
  {
    ExportLayout(es, show);
    CsvHeadersArePlain();
    var t := TrimAll(CsvHeaders);
    forall i | 0 <= i < |CsvHeaders| ensures t[i] == CsvHeaders[i] {
      TrimIdentity(CsvHeaders[i]);
    }
  }

  /** The fields of an exported data line are read back unchanged. */
  lemma ExportedRowFields(e: Entry, show: real -> string)
    requires ShowIsPlain(show) && HasPlainText(e)
    ensures Fields(RowLine(e, show)) == RowFields(e, show)
  {
    var fields := RowFields(e, show);
    RowFieldsArePlain(e, show);
    SplitJoin(fields, ',');
    var values := Fields(RowLine(e, show));
    forall i | 0 <= i < |fields| ensures values[i] == fields[i] {
      assert fields[i] in fields;
      TrimIdentity(fields[i]);
    }
  }

  /** In CSV_HEADERS, pseudo is column 0, color column 1 and key j column j + 2, each only once. */
  lemma CsvHeadersColumns()
    ensures LastIndex(CsvHeaders, "pseudo") == Some(0)
    ensures LastIndex(CsvHeaders, "color") == Some(1)
    ensures forall j :: 0 <= j < 16 ==> LastIndex(CsvHeaders, KeyName(AllKeys[j])) == Some(j + 2)
  {
    CsvHeadersLayout();
    CsvHeadersDistinct();
    LastIndexSpec(CsvHeaders, "pseudo");
    LastIndexSpec(CsvHeaders, "color");
    forall j | 0 <= j < 16 ensures LastIndex(CsvHeaders, KeyName(AllKeys[j])) == Some(j + 2) {
      LastIndexSpec(CsvHeaders, KeyName(AllKeys[j]));
      assert CsvHeaders[j + 2] == KeyName(AllKeys[j]);
    }
  }

  /** An exported data line is read back as the entry with nulls turned into 0. */
  lemma ExportedRowReadsBack(e: Entry, id: int, show: real -> string, parse: string -> Option<real>)
    requires ShowIsPlain(show) && ParseUndoesShow(show, parse) && HasPlainText(e)
    ensures ImportedEntry(CsvHeaders, Fields(RowLine(e, show)), id, parse) == Reimported(e, id)
  {
    var values := RowFields(e, show);
    ExportedRowFields(e, show);
    RowFieldsLayout(e, show);
    CsvHeadersColumns();
    var r := ImportedScores(CsvHeaders, values, parse);
    forall j | 0 <= j < 16 ensures r[j] == Some(NumberOf(e.scores[j])) {
      ExportedScoreReadsBack(e, show, parse, j);
    }
  }

  /** The score of key j is read back from column j + 2 of an exported line. */
  lemma ExportedScoreReadsBack(e: Entry, show: real -> string, parse: string -> Option<real>, j: nat)
    requires j < 16 && ShowIsPlain(show) && ParseUndoesShow(show, parse)
    ensures ScoreCell(CsvHeaders, RowFields(e, show), AllKeys[j], parse) == Some(NumberOf(e.scores[j]))
  {
    var values := RowFields(e, show);
    RowFieldsLayout(e, show);
    CsvHeadersColumns();
    assert values[j + 2] == ScoreText(e.scores[j], show);
  }

  /** A data line holds 17 commas, so it is never blank. */
  lemma RowLineNotBlank(e: Entry, show: real -> string)
    ensures !IsBlank(RowLine(e, show))
  {
    JoinHasSeparator(RowFields(e, show), ',');
    NotBlankWith(RowLine(e, show), ',');
  }

  /** The data lines of an export are all non-blank, so the import keeps every one of them. */
  lemma ExportedRowsAreKept(es: seq<Entry>, show: real -> string)
    ensures NonBlank(RowLines(es, show)) == RowLines(es, show)
  {
    var rows := RowLines(es, show);
    forall l | l in rows ensures !IsBlank(l) {
      var i :| 0 <= i < |es| && rows[i] == l;
      RowLineNotBlank(es[i], show);
    }
    NonBlankKeepsAll(rows);
  }

  /** The import of a file whose header line is complete and whose data lines are all non-blank. */
  lemma ImportKeepsEveryLine(lines: seq<string>, base: int, parse: string -> Option<real>)
    requires |lines| >= 2
    requires HasAllHeaders(Fields(lines[0]))
    requires NonBlank(lines[1..]) == lines[1..]
    ensures ImportLines(lines, base, parse)
         == Ok(seq(|lines| - 1, i requires 0 <= i < |lines| - 1 => ImportedEntry(Fields(lines[0]), Fields(lines[i + 1]), base + i, parse)))
  {
    var headers, rows := Fields(lines[0]), lines[1..];
    var a := seq(|rows|, i requires 0 <= i < |rows| => ImportedEntry(headers, Fields(rows[i]), base + i, parse));
    var b := seq(|lines| - 1, i requires 0 <= i < |lines| - 1 => ImportedEntry(headers, Fields(lines[i + 1]), base + i, parse));
    assert a == b;
  }

  /** A data line read under the CSV_HEADERS columns gives its entry back. */
  lemma DataLineReadsBack(headers: seq<string>, line: string, e: Entry, id: int, show: real -> string, parse: string -> Option<real>)
    requires headers == CsvHeaders && line == RowLine(e, show)
    requires ShowIsPlain(show) && ParseUndoesShow(show, parse) && HasPlainText(e)
    ensures ImportedEntry(headers, Fields(line), id, parse) == Reimported(e, id)
  {
    ExportedRowReadsBack(e, id, show, parse);
  }

  /** Lines that are the data lines of some entries are all kept by the import. */
  lemma RowLinesAreKept(lines: seq<string>, es: seq<Entry>, show: real -> string)
    requires |lines| == |es| + 1
    requires forall i :: 0 <= i < |es| ==> lines[i + 1] == RowLine(es[i], show)
    ensures NonBlank(lines[1..]) == lines[1..]
  {
    forall l | l in lines[1..] ensures !IsBlank(l) {
      var i :| 0 <= i < |es| && lines[1..][i] == l;
      RowLineNotBlank(es[i], show);
    }
    NonBlankKeepsAll(lines[1..]);
  }

  /** Entries read back one by one are read back as a list. */
  lemma RowLinesReadBack(lines: seq<string>, es: seq<Entry>, base: int, parse: string -> Option<real>)
    requires |lines| == |es| + 1
    requires forall i :: 0 <= i < |es| ==> ImportedEntry(Fields(lines[0]), Fields(lines[i + 1]), base + i, parse) == Reimported(es[i], base + i)
    ensures seq(|lines| - 1, i requires 0 <= i < |lines| - 1 => ImportedEntry(Fields(lines[0]), Fields(lines[i + 1]), base + i, parse))
         == seq(|es|, i requires 0 <= i < |es| => Reimported(es[i], base + i))
  {
  }

  /** A data line of `es`, read under CSV_HEADERS, gives its entry back. */
  lemma RowLineReadsBackAt(lines: seq<string>, es: seq<Entry>, base: int, show: real -> string, parse: string -> Option<real>, i: nat)
    requires i < |es| && |lines| == |es| + 1
    requires Fields(lines[0]) == CsvHeaders
    requires lines[i + 1] == RowLine(es[i], show)
    requires ShowIsPlain(show) && ParseUndoesShow(show, parse)
    requires forall e :: e in es ==> HasPlainText(e)
    ensures ImportedEntry(Fields(lines[0]), Fields(lines[i + 1]), base + i, parse) == Reimported(es[i], base + i)
  {
    assert es[i] in es;
    DataLineReadsBack(Fields(lines[0]), lines[i + 1], es[i], base + i, show, parse);
  }

  /**
   * Importing lines whose first line reads back as CSV_HEADERS and whose
   * other lines are the data lines of `es`, in order, gives `es` back.
   */
  lemma ImportRowsOf(lines: seq<string>, es: seq<Entry>, base: int, show: real -> string, parse: string -> Option<real>)
    requires |es| > 0 && |lines| == |es| + 1
    requires Fields(lines[0]) == CsvHeaders
    requires forall i :: 0 <= i < |es| ==> lines[i + 1] == RowLine(es[i], show)
    requires ShowIsPlain(show) && ParseUndoesShow(show, parse)
    requires forall e :: e in es ==> HasPlainText(e)
    ensures ImportLines(lines, base, parse) == Ok(seq(|es|, i requires 0 <= i < |es| => Reimported(es[i], base + i)))
  {
    RowLinesAreKept(lines, es, show);
    forall i | 0 <= i < |es|
      ensures ImportedEntry(Fields(lines[0]), Fields(lines[i + 1]), base + i, parse) == Reimported(es[i], base + i)
    {
      RowLineReadsBackAt(lines, es, base, show, parse, i);
    }
    RowLinesReadBack(lines, es, base, parse);
    ImportKeepsEveryLine(lines, base, parse);
  }

  /**
   * Exporting entries whose pseudo and colour are plain fields, then
   * importing the text, gives the same entries back in the same order, with
   * the import's ids and with null scores read back as 0.
   */
  lemma ExportImportRoundTrip(es: seq<Entry>, base: int, show: real -> string, parse: string -> Option<real>)
    requires |es| > 0
    requires ShowIsPlain(show) && ParseUndoesShow(show, parse)
    requires forall e :: e in es ==> HasPlainText(e)
    ensures ImportCsv(ExportText(es, show), base, parse)
         == Ok(seq(|es|, i requires 0 <= i < |es| => Reimported(es[i], base + i)))
  {
    ExportLayout(es, show);
    ExportedHeaderFields(es, show);
    forall i | 0 <= i < |es| ensures ExportLines(es, show)[i + 1] == RowLine(es[i], show) {
      ExportLineAt(es, show, i);
    }
    ImportRowsOf(ExportLines(es, show), es, base, show, parse);
  }
}
