/**
  The SDK facade: credential validation at construction, the three ways of
  turning a prompt (plain, with a delimited-text file, with a list of items)
  into the request handed to the transport, and the rendering of delimited
  text as a Markdown table.
 */
module GoogleGenerativeAI {
  import opened Wrappers
  import opened JavaStrings
  import opened GeminiRequest

  // ---------------------------------------------------------------
  // Construction
  // ---------------------------------------------------------------

  /** The two configuration failures the constructor raises. */
  datatype ConfigError = MissingApiKey | MissingModel

  function ErrorMessage(e: ConfigError): string {
    match e
    case MissingApiKey => "Gemini API key is required."
    case MissingModel => "Gemini model name is required."
  }

  /** A client: the credentials it sends every request with. */
  datatype Client = Client(apiKey: string, model: string)

  /** The message of a rejected construction names the first bad argument. */
  lemma ConstructorMessages(apiKey: Option<string>, model: Option<string>)
    ensures !Usable(apiKey) ==>
      ErrorMessage(NewClient(apiKey, model).error) == "Gemini API key is required."
    ensures Usable(apiKey) && !Usable(model) ==>
      ErrorMessage(NewClient(apiKey, model).error) == "Gemini model name is required."
    ensures ErrorMessage(MissingApiKey) != ErrorMessage(MissingModel)
  {
  }

  /** Blankness as Character.isWhitespace has it: line terminators and the
      ideographic space are blank, the non-breaking spaces are not. */
  lemma BlankArguments(model: Option<string>)
    ensures NewClient(Some(""), model) == Failure(MissingApiKey)
    ensures NewClient(Some(" \t\r\n\U{3000}\U{2028}"), model) == Failure(MissingApiKey)
    ensures NewClient(Some("\U{00A0}"), Some("\U{2007}\U{202F}")) == Success(Client("\U{00A0}", "\U{2007}\U{202F}"))
  {
    var k := " \t\r\n\U{3000}\U{2028}";
    assert IsBlank(k) by {
      assert forall i :: 0 <= i < |k| ==> IsWhitespace(k[i]);
    }
    var a, m := "\U{00A0}", "\U{2007}\U{202F}";
    assert !IsWhitespace(a[0]) && !IsWhitespace(m[0]);
  }

  /** A constructor argument that is neither null nor blank. */
  predicate Usable(s: Option<string>) {
    s.Some? && !IsBlank(s.value)
  }

  /** The constructor: the API key is checked first, then the model name;
      a client is built only from two usable arguments, and keeps them as given. */
  function NewClient(apiKey: Option<string>, model: Option<string>): (r: Result<Client, ConfigError>)
    ensures r.Success? <==> Usable(apiKey) && Usable(model)
    ensures r.Success? ==> r.value.apiKey == apiKey.value && r.value.model == model.value
    ensures r == Failure(MissingApiKey) <==> !Usable(apiKey)
    ensures r == Failure(MissingModel) <==> Usable(apiKey) && !Usable(model)
  {
    if apiKey.None? || IsBlank(apiKey.value) then Failure(MissingApiKey)
    else if model.None? || IsBlank(model.value) then Failure(MissingModel)
    else Success(Client(apiKey.value, model.value))
  }

  /** What is handed to the transport: the model, the key and the request. */
  datatype Call = Call(model: string, apiKey: string, request: Request)

  /** generate(prompt): the prompt is sent unchanged, with the client's
      model and key; the payload's single text part is the prompt. */
  function Generate(c: Client, prompt: string): (call: Call)
    ensures call.model == c.model && call.apiKey == c.apiKey
    ensures BodyText(call.request.ToBody()) == Some(prompt)
  {
    Call(c.model, c.apiKey, Request(prompt))
  }

  // ---------------------------------------------------------------
  // Markdown table
  // ---------------------------------------------------------------

  /** The cells of one line: line.split(","). */
  function Cells(line: string): seq<string> {
    Split(line, ',')
  }

  /** One table row, without its line break. */
  function RowText(cells: seq<string>): string {
    "| " + Join(" | ", cells) + " |"
  }

  /** The separator row for k header cells, without its line break. */
  function SeparatorText(k: nat): string {
    "|" + Repeat("---|", k)
  }

  /** The data rows, one per line, each followed by a line break. */
  function DataRows(lines: seq<string>): string
    decreases |lines|
  {
    if lines == [] then "" else RowText(Cells(lines[0])) + "\n" + DataRows(lines[1..])
  }

  /** The row texts of the given lines, in order. */
  function RowTexts(lines: seq<string>): (r: seq<string>)
    ensures |r| == |lines|
    ensures forall j :: 0 <= j < |lines| ==> r[j] == RowText(Cells(lines[j]))
  {
    seq(|lines|, j requires 0 <= j < |lines| => RowText(Cells(lines[j])))
  }

  /** asMarkdownTable(csv): the input itself when it has no line at all;
      otherwise a leading line break, the header row, the separator row sized
      to the header and one row per further line. */
  function MarkdownTable(csv: string): string {
    var lines := SplitLines(csv);
    if |lines| == 0 then csv
    else
      var header := Cells(lines[0]);
      "\n" + (RowText(header) + "\n" + (SeparatorText(|header|) + "\n" + DataRows(lines[1..])))
  }

  lemma Assoc(a: string, b: string, c: string)
    ensures a + b + c == a + (b + c)
  {
  }

  lemma {:induction false} DataRowsSnoc(lines: seq<string>, line: string)
    ensures DataRows(lines + [line]) == DataRows(lines) + (RowText(Cells(line)) + "\n")
    decreases |lines|
  {
    if lines == [] {
      assert [line][1..] == [];
    } else {
      assert (lines + [line])[1..] == lines[1..] + [line];
      DataRowsSnoc(lines[1..], line);
      Assoc(RowText(Cells(lines[0])) + "\n", DataRows(lines[1..]), RowText(Cells(line)) + "\n");
    }
  }

  /** The pieces of one appended row: the row and its line break. */
  lemma RowAppend(acc: string, cells: seq<string>)
    ensures acc + "| " + Join(" | ", cells) + " |\n" == acc + (RowText(cells) + "\n")
  {
    var j := Join(" | ", cells);
    assert " |\n" == " |" + "\n";
    Assoc("| " + j, " |", "\n");
    Assoc(acc, "| ", j);
    Assoc(acc, "| " + j, " |\n");
  }

  /** The pieces of the appended separator: the separator and its line break. */
  lemma SeparatorAppend(acc: string, k: nat)
    ensures acc + "|" + Repeat("---|", k) + "\n" == acc + (SeparatorText(k) + "\n")
  {
    Assoc(acc, "|", Repeat("---|", k));
    Assoc(acc, SeparatorText(k), "\n");
  }

  /** The header as the string builder starts it: a line break, the row, a line break. */
  lemma HeaderStart(cells: seq<string>)
    ensures "\n| " + Join(" | ", cells) + " |\n" == "\n" + (RowText(cells) + "\n")
  {
    assert "\n| " == "\n" + "| ";
    Assoc("\n", "| ", Join(" | ", cells));
    RowAppend("\n", cells);
  }

  /** The table of an input with at least one line, as the builder accumulates it. */
  lemma TableUnfold(csv: string)
    requires SplitLines(csv) != []
    ensures var lines := SplitLines(csv);
      var header := Cells(lines[0]);
      MarkdownTable(csv)
        == "\n" + (RowText(header) + "\n") + (SeparatorText(|header|) + "\n") + DataRows(lines[1..])
  {
    var lines := SplitLines(csv);
    var header := Cells(lines[0]);
    var h, sep, d := RowText(header) + "\n", SeparatorText(|header|) + "\n", DataRows(lines[1..]);
    Assoc("\n" + h, sep, d);
    Assoc("\n", h, sep + d);
  }

  /** The table built row by row in a string builder. */
  method AsMarkdownTable(csv: string) returns (table: string)
    ensures table == MarkdownTable(csv)
  {
    var lines := SplitLines(csv);
    if |lines| == 0 {
      return csv;
    }
    var header := Cells(lines[0]);
    table := "\n| " + Join(" | ", header) + " |\n";
    HeaderStart(header);
    SeparatorAppend(table, |header|);
    table := table + "|" + Repeat("---|", |header|) + "\n";
    ghost var head := table;
    ghost var rest := lines[1..];
    for i := 1 to |lines|
      invariant table == head + DataRows(rest[..i - 1])
    {
      assert rest[..i] == rest[..i - 1] + [lines[i]];
      DataRowsSnoc(rest[..i - 1], lines[i]);
      RowAppend(table, Cells(lines[i]));
      Assoc(head, DataRows(rest[..i - 1]), RowText(Cells(lines[i])) + "\n");
      table := table + "| " + Join(" | ", Cells(lines[i])) + " |\n";
    }
    assert rest[..|lines| - 1] == rest;
    TableUnfold(csv);
  }

  /** A string without line terminators has no line feed. */
  lemma NoLineFeed(s: string)
    requires !HasLineTerminator(s)
    ensures '\n' !in s
  {
  }

  /** The row of a line without line feeds has none either. */
  lemma RowHasNoLineFeed(line: string)
    requires '\n' !in line
    ensures '\n' !in RowText(Cells(line))
  {
    SplitAvoids(line, ',', '\n');
    JoinAvoids(" | ", Cells(line), '\n');
  }

  /** Rows of lines without line feeds: splitting the rendered rows on line
      feeds gives back exactly one row per line, in order. */
  lemma {:induction false} DataRowsPieces(lines: seq<string>)
    requires forall j :: 0 <= j < |lines| ==> '\n' !in lines[j]
    ensures CharPieces(DataRows(lines), '\n') == RowTexts(lines) + [""]
    decreases |lines|
  {
    if lines != [] {
      RowHasNoLineFeed(lines[0]);
      DataRowsPieces(lines[1..]);
      CharPiecesAppend(RowText(Cells(lines[0])), '\n', DataRows(lines[1..]));
      assert RowText(Cells(lines[0])) + "\n" + DataRows(lines[1..])
          == RowText(Cells(lines[0])) + ['\n'] + DataRows(lines[1..]);
      assert RowTexts(lines) == [RowText(Cells(lines[0]))] + RowTexts(lines[1..]);
    }
  }

  /** With no line in the input (it is non-empty and made of line breaks
      only), the table is the input itself. */
  lemma TableOfNoLines(csv: string)
    requires csv != "" && AllLineTerminators(csv)
    ensures MarkdownTable(csv) == csv
  {
  }

  /** Otherwise the table opens with a line break and the header row: the
      header line's comma fields joined by " | " between "| " and " |". */
  lemma TableStartsWithHeader(csv: string)
    requires csv == "" || !AllLineTerminators(csv)
    ensures var header := Cells(SplitLines(csv)[0]);
      "\n| " + Join(" | ", header) + " |\n" <= MarkdownTable(csv)
  {
  }

  /** Three line-feed-free rows, each after a line feed, then the rest. */
  lemma ThreeRowsPieces(h: string, sep: string, d: string)
    requires '\n' !in h && '\n' !in sep
    ensures CharPieces("\n" + (h + "\n" + (sep + "\n" + d)), '\n') == ["", h, sep] + CharPieces(d, '\n')
  {
    var x := sep + ['\n'] + d;
    CharPiecesAppend(sep, '\n', d);
    var y := h + ['\n'] + x;
    CharPiecesAppend(h, '\n', x);
    CharPiecesAppend([], '\n', y);
    assert [] + ['\n'] + y == "\n" + y;
  }

  /** The separator row has no line feed. */
  lemma SeparatorHasNoLineFeed(k: nat)
    ensures '\n' !in SeparatorText(k)
  {
    if '\n' in SeparatorText(k) {
      var w := Repeat("---|", k);
      assert SeparatorText(k) == "|" + w;
      var i :| 0 <= i < |SeparatorText(k)| && SeparatorText(k)[i] == '\n';
      RepeatAvoids(k, i - 1);
      assert false;
    }
  }

  /** The rows of the table: split on line feeds, it is an empty piece (the
      leading break), the header row, the separator row sized to the header,
      one row per further input line in input order, and an empty piece (the
      final break) — data lines + 2 rows in all. */
  lemma TableRows(csv: string)
    requires csv == "" || !AllLineTerminators(csv)
    ensures var lines := SplitLines(csv);
      var header := Cells(lines[0]);
      CharPieces(MarkdownTable(csv), '\n')
        == ["", RowText(header), SeparatorText(|header|)] + RowTexts(lines[1..]) + [""]
  {
    var lines := SplitLines(csv);
    var header := Cells(lines[0]);
    forall j | 0 <= j < |lines| ensures '\n' !in lines[j] {
      NoLineFeed(lines[j]);
    }
    RowHasNoLineFeed(lines[0]);
    SeparatorHasNoLineFeed(|header|);
    DataRowsPieces(lines[1..]);
    ThreeRowsPieces(RowText(header), SeparatorText(|header|), DataRows(lines[1..]));
  }

  lemma {:induction false} RepeatAvoids(k: nat, i: int)
    requires 0 <= i < |Repeat("---|", k)|
    ensures Repeat("---|", k)[i] in "---|"
    decreases k
  {
    if i >= 4 {
      RepeatAvoids(k - 1, i - 4);
    }
  }

  /** The separator's block repeated k times, split on '|': k cells "---"
      and a final empty piece. */
  lemma {:induction false} RepeatPieces(k: nat)
    ensures CharPieces(Repeat("---|", k), '|') == seq(k, _ => "---") + [""]
    decreases k
  {
    if k > 0 {
      RepeatPieces(k - 1);
      CharPiecesAppend("---", '|', Repeat("---|", k - 1));
      assert Repeat("---|", k) == "---" + ['|'] + Repeat("---|", k - 1);
      assert seq(k, _ => "---") == ["---"] + seq(k - 1, _ => "---");
    }
  }

  /** The separator row has exactly one "---" cell per header field. */
  lemma SeparatorCells(k: nat)
    ensures CharPieces(SeparatorText(k), '|') == [""] + seq(k, _ => "---") + [""]
  {
    RepeatPieces(k);
    CharPiecesAppend("", '|', Repeat("---|", k));
    assert SeparatorText(k) == "" + ['|'] + Repeat("---|", k);
  }

  /** A header line and two data lines of two fields each render as a
      two-column table: header, a separator of two cells, and the two rows in
      order (the shape of "name,score\nAda,10\nLin,8"). */
  lemma TwoColumnTable(a: string, b: string, c: string, d: string, e: string, f: string)
    requires ',' !in a && ',' !in b && ',' !in c && ',' !in d && ',' !in e && ',' !in f
    requires !HasLineTerminator(a) && !HasLineTerminator(b) && !HasLineTerminator(c)
    requires !HasLineTerminator(d) && !HasLineTerminator(e) && !HasLineTerminator(f)
    requires b != "" && d != "" && f != ""
    ensures MarkdownTable(a + "," + b + "\n" + c + "," + d + "\n" + e + "," + f)
         == "\n" + ("| " + a + " | " + b + " |\n") + "|---|---|\n"
            + ("| " + c + " | " + d + " |\n") + ("| " + e + " | " + f + " |\n")
  {
    var l0, l1, l2 := a + "," + b, c + "," + d, e + "," + f;
    LineOfTwo(a, b);
    LineOfTwo(c, d);
    LineOfTwo(e, f);
    var csv := a + "," + b + "\n" + c + "," + d + "\n" + e + "," + f;
    assert csv == l0 + "\n" + l1 + "\n" + l2;
    ThreeLines(l0, l1, l2);
    TableOfThreeLines(csv, l0, l1, l2);
    RowOfTwo(a, b);
    RowOfTwo(c, d);
    RowOfTwo(e, f);
    assert SeparatorText(2) + "\n" == "|---|---|\n";
  }

  /** Three lines separated by line feeds, the last one non-empty. */
  lemma ThreeLines(l0: string, l1: string, l2: string)
    requires !HasLineTerminator(l0) && !HasLineTerminator(l1) && !HasLineTerminator(l2) && l2 != ""
    ensures SplitLines(l0 + "\n" + l1 + "\n" + l2) == [l0, l1, l2]
  {
    var csv := l0 + "\n" + l1 + "\n" + l2;
    assert csv == l0 + "\n" + (l1 + "\n" + l2);
    LinePiecesNone(l2);
    LinePiecesBreak(l1, "\n", l2);
    LinePiecesBreak(l0, "\n", l1 + "\n" + l2);
    assert HasLineTerminator(csv) by { assert IsLineTerminator(csv[|l0|]); }
  }

  /** The row of two cells. */
  lemma RowOfTwo(a: string, b: string)
    ensures RowText([a, b]) + "\n" == "| " + a + " | " + b + " |\n"
  {
    assert Join(" | ", [a, b]) == a + " | " + b;
    RowAppend("", [a, b]);
    assert "" + "| " + (a + " | " + b) == "| " + a + " | " + b;
  }

  /** The table of an input of three lines: the header, the separator and two rows. */
  lemma TableOfThreeLines(csv: string, l0: string, l1: string, l2: string)
    requires SplitLines(csv) == [l0, l1, l2]
    ensures MarkdownTable(csv)
         == "\n" + (RowText(Cells(l0)) + "\n") + (SeparatorText(|Cells(l0)|) + "\n")
            + (RowText(Cells(l1)) + "\n") + (RowText(Cells(l2)) + "\n")
  {
    assert [l0, l1, l2][1..] == [l1, l2];
    assert [l1, l2][1..] == [l2] && [l2][1..] == [];
    var x0, sp := RowText(Cells(l0)) + "\n", SeparatorText(|Cells(l0)|) + "\n";
    var x1, x2 := RowText(Cells(l1)) + "\n", RowText(Cells(l2)) + "\n";
    assert DataRows([l2]) == x2 + "" == x2;
    assert DataRows([l1, l2]) == x1 + x2;
    TableUnfold(csv);
    assert MarkdownTable(csv) == "\n" + x0 + sp + (x1 + x2);
    Assoc("\n" + x0 + sp, x1, x2);
  }

  /** A line of two comma-free, non-empty fields. */
  lemma LineOfTwo(a: string, b: string)
    requires ',' !in a && ',' !in b && b != ""
    requires !HasLineTerminator(a) && !HasLineTerminator(b)
    ensures Cells(a + "," + b) == [a, b]
    ensures !HasLineTerminator(a + "," + b)
  {
    CellsPair(a, b);
    var l := a + "," + b;
    forall i | 0 <= i < |l| ensures !IsLineTerminator(l[i]) {
      if i < |a| { assert l[i] == a[i]; }
      else if i > |a| { assert l[i] == b[i - |a| - 1]; }
    }
  }

  /** A line of two comma-free, non-empty fields. */
  lemma CellsPair(a: string, b: string)
    requires ',' !in a && ',' !in b && b != ""
    ensures Cells(a + "," + b) == [a, b]
  {
    CharPiecesNone(b, ',');
    CharPiecesAppend(a, ',', b);
    assert a + "," + b == a + [','] + b;
    assert ',' in a + "," + b by { assert (a + "," + b)[|a|] == ','; }
  }

  // ---------------------------------------------------------------
  // Prompt with a list of items
  // ---------------------------------------------------------------

  const DataLabel: string := "\n\nDatos cargados:\n"

  /** One bullet line per item, in order. */
  function Bullets(items: seq<string>): string
    decreases |items|
  {
    if items == [] then "" else "\U{2022} " + items[0] + "\n" + Bullets(items[1..])
  }

  /** The request text of generate(prompt, list): the plain prompt for a null
      or empty list, otherwise the prompt, the label and the bullets. */
  function ListText(prompt: string, data: Option<seq<string>>): string {
    if data.None? || data.value == [] then prompt else prompt + DataLabel + Bullets(data.value)
  }

  lemma {:induction false} BulletsSnoc(items: seq<string>, item: string)
    ensures Bullets(items + [item]) == Bullets(items) + "\U{2022} " + item + "\n"
    decreases |items|
  {
    if items == [] {
      assert [item][1..] == [];
    } else {
      assert (items + [item])[1..] == items[1..] + [item];
      BulletsSnoc(items[1..], item);
    }
  }

  /** generate(prompt, list): the bullets appended one by one to a string builder. */
  method GenerateWithList(c: Client, prompt: string, data: Option<seq<string>>) returns (call: Call)
    ensures call == Call(c.model, c.apiKey, Request(ListText(prompt, data)))
  {
    if data.None? || data.value == [] {
      return Generate(c, prompt);
    }
    var items := data.value;
    var sb := prompt + DataLabel;
    for i := 0 to |items|
      invariant sb == prompt + DataLabel + Bullets(items[..i])
    {
      BulletsSnoc(items[..i], items[i]);
      assert items[..i + 1] == items[..i] + [items[i]];
      sb := sb + "\U{2022} " + items[i] + "\n";
    }
    assert items[..|items|] == items;
    call := Call(c.model, c.apiKey, Request(sb));
  }

  /** Items without line feeds give exactly one bullet line each, in order:
      split on line feeds, the bullets are "• item" per item and a final
      empty piece. */
  lemma {:induction false} BulletLines(items: seq<string>)
    requires forall j :: 0 <= j < |items| ==> '\n' !in items[j]
    ensures CharPieces(Bullets(items), '\n')
         == seq(|items|, j requires 0 <= j < |items| => "\U{2022} " + items[j]) + [""]
    decreases |items|
  {
    if items != [] {
      BulletLines(items[1..]);
      CharPiecesAppend("\U{2022} " + items[0], '\n', Bullets(items[1..]));
      assert Bullets(items) == ("\U{2022} " + items[0]) + ['\n'] + Bullets(items[1..]);
    }
  }

  /** The list request text is the plain prompt exactly when the list is null or empty. */
  lemma ListFallback(prompt: string, data: Option<seq<string>>)
    ensures ListText(prompt, data) == prompt <==> data.None? || data.value == []
  {
  }

  /** A non-empty list: the prompt, then the label, then the bullets. */
  lemma ListExample()
    ensures ListText("List:", Some(["a", "b"])) == "List:\n\nDatos cargados:\n\U{2022} a\n\U{2022} b\n"
  {
    assert Bullets(["a", "b"]) == "\U{2022} a\n" + Bullets(["b"]);
  }

  // ---------------------------------------------------------------
  // Prompt with a file of delimited text
  // ---------------------------------------------------------------

  const FileIntro: string := "A continuación se presentan los datos en formato de tabla:\n\n"
  const FileQuestion: string := "\n\nBasándote únicamente en esta información,\nresponde a la siguiente pregunta:\n"

  /** The request text of generate(prompt, file): the plain prompt when the
      file is null, does not exist or is empty; otherwise the template with
      the rendered table first and the question after it. */
  function FileText(prompt: string, file: Option<string>): string {
    if file.None? || file.value == "" then prompt
    else FileIntro + MarkdownTable(file.value) + FileQuestion + prompt + "\n"
  }

  /** generate(prompt, file), the file given by its contents. */
  method GenerateWithFile(c: Client, prompt: string, file: Option<string>) returns (call: Call)
    ensures call == Call(c.model, c.apiKey, Request(FileText(prompt, file)))
  {
    if file.None? || file.value == "" {
      return Generate(c, prompt);
    }
    var table := AsMarkdownTable(file.value);
    var fullPrompt := FileIntro + table + FileQuestion + prompt + "\n";
    call := Call(c.model, c.apiKey, Request(fullPrompt));
  }

  /** The file request text is the plain prompt exactly when there is no file
      or it is empty. */
  lemma FileFallback(prompt: string, file: Option<string>)
    ensures FileText(prompt, file) == prompt <==> file.None? || file.value == ""
  {
  }

  /** The pieces of a + b + c + d + e are found at their positions. */
  lemma FivePieces(a: string, b: string, c: string, d: string, e: string)
    ensures var w := a + b + c + d + e;
      var qs := |a| + |b|;
      |w| == qs + |c| + |d| + |e|
      && w[..|a|] == a
      && w[|a|..qs] == b
      && w[qs..qs + |c|] == c
      && w[qs + |c|..qs + |c| + |d|] == d
  {
    var w := a + b + c + d + e;
    assert w == a + (b + (c + (d + e)));
    assert w[|a|..] == b + (c + (d + e));
    assert w[|a| + |b|..] == c + (d + e);
    assert w[|a| + |b| + |c|..] == d + e;
  }

  /** A non-empty file: the rendered table stands after the introduction and
      before the question, and the prompt closes the text. */
  lemma TableBeforeQuestion(prompt: string, raw: string)
    requires raw != ""
    ensures var text := FileText(prompt, Some(raw));
      var t := MarkdownTable(raw);
      var qs := |FileIntro| + |t|;
      qs + |FileQuestion| + |prompt| + 1 == |text|
      && text[..|FileIntro|] == FileIntro
      && text[|FileIntro|..qs] == t
      && text[qs..qs + |FileQuestion|] == FileQuestion
      && text[qs + |FileQuestion|..|text| - 1] == prompt
  {
    FivePieces(FileIntro, MarkdownTable(raw), FileQuestion, prompt, "\n");
  }

  // ---------------------------------------------------------------
  // The prompt overloads as one entry point
  // ---------------------------------------------------------------

  /** The optional data of a prompt: none, a file (by its contents; None for
      a null or missing file) or a list (None for a null list). */
  datatype AuxData = NoData | FileData(file: Option<string>) | ListData(data: Option<seq<string>>)

  /** The text that is sent for a prompt and its data. */
  function RequestText(prompt: string, aux: AuxData): string {
    match aux
    case NoData => prompt
    case FileData(file) => FileText(prompt, file)
    case ListData(data) => ListText(prompt, data)
  }

  /** prompt(message), prompt(message, file), prompt(message, list). */
  method Prompt(c: Client, message: string, aux: AuxData) returns (call: Call)
    ensures call == Call(c.model, c.apiKey, Request(RequestText(message, aux)))
  {
    match aux
    case NoData => call := Generate(c, message);
    case FileData(file) => call := GenerateWithFile(c, message, file);
    case ListData(data) => call := GenerateWithList(c, message, data);
  }

  /** The request degrades to the plain prompt exactly when there is no data:
      no argument, a null, missing or empty file, or a null or empty list. */
  lemma DegradesToPlain(prompt: string, aux: AuxData)
    ensures RequestText(prompt, aux) == prompt
        <==> match aux
             case NoData => true
             case FileData(file) => file.None? || file.value == ""
             case ListData(data) => data.None? || data.value == []
  {
  }
}
