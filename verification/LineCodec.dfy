/** The default log line, and a reader that recovers the events from a log file. */
module LineCodec {
  import opened Wrappers
  import opened LogTypes
  import opened Sequences
  import opened Text
  import opened Formatter
  import opened PatternLaws

  const DEFAULT_PATTERN := "%d [%p] %f %l %m %n"

  /** What one line of the log says about its event. */
  datatype Record = Record(time: nat, level: Level, fileName: string, lineNum: int, message: string)

  function RecordOf(level: Level, event: LogEvent): Record {
    Record(event.time, level, event.fileName, event.lineNum, event.message)
  }

  /** Texts that the default line can carry without ambiguity. */
  predicate Clean(event: LogEvent) {
    && '\n' !in event.message
    && '\n' !in event.fileName && ' ' !in event.fileName
  }

  // ---- What the default pattern renders ----------------------------------------------------------

  function TextFromMessage(r: Record): string {
    r.message + " "
  }

  function TextFromLine(r: Record): string {
    IntText(r.lineNum) + (" " + TextFromMessage(r))
  }

  function TextFromFile(r: Record): string {
    r.fileName + (" " + TextFromLine(r))
  }

  function TextFromLevel(r: Record): string {
    LevelText(r.level) + ("] " + TextFromFile(r))
  }

  /** The line without its newline. */
  function LineText(r: Record): string {
    NatText(r.time) + (" [" + TextFromLevel(r))
  }

  function ItemsFromMessage(): seq<Item> {
    [Message, Literal(" ")] + [NewLine]
  }

  function ItemsFromLine(): seq<Item> {
    [LineNum, Literal(" ")] + ItemsFromMessage()
  }

  function ItemsFromFile(): seq<Item> {
    [FileName, Literal(" ")] + ItemsFromLine()
  }

  function ItemsFromLevel(): seq<Item> {
    [LevelName, Literal("] ")] + ItemsFromFile()
  }

  function DefaultItems(): seq<Item> {
    [Time, Literal(" [")] + ItemsFromLevel()
  }

  lemma {:induction false} EscapePlain(text: string)
    requires '%' !in text
    ensures Escape(text) == text
  {
    if text != "" {
      EscapePlain(text[1..]);
      assert text == [text[0]] + text[1..];
    }
  }

  /** A field and its delimiter put before items that end a line. */
  lemma FieldThenLiteral(item: Item, text: string, rest: seq<Item>, printed: string, line: string,
                         level: Level, event: LogEvent)
    requires '%' !in text && text != "" && !item.Literal?
    requires PrintItems(rest) == printed && FormatItems(rest, level, event) == line + "\n"
    requires NormalForm(rest) && rest != [] && !rest[0].Literal?
    ensures PrintItems([item, Literal(text)] + rest) == PrintItem(item) + (text + printed)
    ensures FormatItems([item, Literal(text)] + rest, level, event) == (ItemText(item, level, event) + (text + line)) + "\n"
    ensures NormalForm([item, Literal(text)] + rest)
  {
    EscapePlain(text);
    assert [item, Literal(text)] + rest == [item] + ([Literal(text)] + rest);
    Tail(item, [Literal(text)] + rest);
    Tail(Literal(text), rest);
    Assoc(text, line, "\n");
    Assoc(ItemText(item, level, event), text + line, "\n");
  }

  lemma LineFromMessage(level: Level, event: LogEvent)
    ensures PrintItems(ItemsFromMessage()) == "%m" + (" " + "%n")
    ensures FormatItems(ItemsFromMessage(), level, event) == TextFromMessage(RecordOf(level, event)) + "\n"
    ensures NormalForm(ItemsFromMessage())
  {
    var items := [NewLine];
    assert items[1..] == [];
    assert PrintItems(items) == "%n" && FormatItems(items, level, event) == "" + "\n";
    FieldThenLiteral(Message, " ", items, "%n", "", level, event);
    Unit(" ");
  }

  lemma LineFromLine(level: Level, event: LogEvent)
    ensures PrintItems(ItemsFromLine()) == "%l" + (" " + PrintItems(ItemsFromMessage()))
    ensures FormatItems(ItemsFromLine(), level, event) == TextFromLine(RecordOf(level, event)) + "\n"
    ensures NormalForm(ItemsFromLine())
  {
    LineFromMessage(level, event);
    FieldThenLiteral(LineNum, " ", ItemsFromMessage(), PrintItems(ItemsFromMessage()),
                     TextFromMessage(RecordOf(level, event)), level, event);
  }

  lemma LineFromFile(level: Level, event: LogEvent)
    ensures PrintItems(ItemsFromFile()) == "%f" + (" " + PrintItems(ItemsFromLine()))
    ensures FormatItems(ItemsFromFile(), level, event) == TextFromFile(RecordOf(level, event)) + "\n"
    ensures NormalForm(ItemsFromFile())
  {
    LineFromLine(level, event);
    FieldThenLiteral(FileName, " ", ItemsFromLine(), PrintItems(ItemsFromLine()),
                     TextFromLine(RecordOf(level, event)), level, event);
  }

  lemma LineFromLevel(level: Level, event: LogEvent)
    ensures PrintItems(ItemsFromLevel()) == "%p" + ("] " + PrintItems(ItemsFromFile()))
    ensures FormatItems(ItemsFromLevel(), level, event) == TextFromLevel(RecordOf(level, event)) + "\n"
    ensures NormalForm(ItemsFromLevel())
  {
    LineFromFile(level, event);
    FieldThenLiteral(LevelName, "] ", ItemsFromFile(), PrintItems(ItemsFromFile()),
                     TextFromFile(RecordOf(level, event)), level, event);
  }

  lemma DefaultLine(level: Level, event: LogEvent)
    ensures PrintItems(DefaultItems()) == "%d" + (" [" + PrintItems(ItemsFromLevel()))
    ensures FormatItems(DefaultItems(), level, event) == LineText(RecordOf(level, event)) + "\n"
    ensures NormalForm(DefaultItems())
  {
    LineFromLevel(level, event);
    FieldThenLiteral(Time, " [", ItemsFromLevel(), PrintItems(ItemsFromLevel()),
                     TextFromLevel(RecordOf(level, event)), level, event);
  }

  /** The compiled default pattern renders an event as its time, level, file, line and message. */
  lemma DefaultPatternRenders(level: Level, event: LogEvent)
    ensures Compile(DEFAULT_PATTERN, "") == Compiled(DefaultItems(), false)
    ensures Interpret(DEFAULT_PATTERN, level, event) == LineText(RecordOf(level, event)) + "\n"
  {
    DefaultLine(level, event);
    PrintedDefault(level, event);
    ParseUndoesPrint(DefaultItems());
    CompiledMeans(DEFAULT_PATTERN, level, event);
  }

  lemma PrintedDefault(level: Level, event: LogEvent)
    ensures PrintItems(DefaultItems()) == DEFAULT_PATTERN
  {
    LineFromMessage(level, event);
    LineFromLine(level, event);
    LineFromFile(level, event);
    LineFromLevel(level, event);
    DefaultLine(level, event);
    JoinedPattern();
  }

  lemma JoinedPattern()
    ensures "%d" + (" [" + ("%p" + ("] " + ("%f" + (" " + ("%l" + (" " + ("%m" + (" " + "%n"))))))))) == DEFAULT_PATTERN
  {
  }

  // ---- Reading a log file back -------------------------------------------------------------------

  const HEADER := "log start\n"
  const FOOTER := "log end\n"

  predicate CleanRecord(r: Record) {
    && '\n' !in r.message
    && '\n' !in r.fileName && ' ' !in r.fileName
  }

  function DecodeLine(line: string): Option<Record> {
    var (time, rest) :- Cut(line, ' ');
    DecodeAfterTime(time, rest)
  }

  function DecodeAfterTime(time: string, s: string): Option<Record> {
    if s == "" || s[0] != '[' then
      None
    else
      var (level, rest) :- Cut(s[1..], ']');
      DecodeAfterLevel(time, level, rest)
  }

  function DecodeAfterLevel(time: string, level: string, s: string): Option<Record> {
    if s == "" || s[0] != ' ' then
      None
    else
      var (fileName, fromLine) :- Cut(s[1..], ' ');
      var (lineNum, rest) :- Cut(fromLine, ' ');
      if rest == "" || rest[|rest| - 1] != ' ' then
        None
      else
        DecodeFields(time, level, fileName, lineNum, rest[..|rest| - 1])
  }

  function DecodeFields(time: string, level: string, fileName: string, lineNum: string, message: string): Option<Record> {
    var t :- ParseNat(time);
    var l :- LevelOf(level);
    var n :- ParseInt(lineNum);
    Some(Record(t, l, fileName, n, message))
  }

  function DecodeBody(body: string): Option<seq<Record>>
    decreases |body|
  {
    if body == "" then
      Some([])
    else
      var (line, rest) :- Cut(body, '\n');
      var record :- DecodeLine(line);
      var records :- DecodeBody(rest);
      Some([record] + records)
  }

  function DropHeader(content: string): string {
    if HEADER <= content then content[|HEADER|..] else content
  }

  function DropFooter(content: string): string {
    if |FOOTER| <= |content| && content[|content| - |FOOTER|..] == FOOTER then content[..|content| - |FOOTER|] else content
  }

  /** Read a whole log file: the opening and closing lines are optional. */
  function DecodeLog(content: string): Option<seq<Record>> {
    DecodeBody(DropFooter(DropHeader(content)))
  }

  function Lines(records: seq<Record>): string {
    if records == [] then "" else LineText(records[0]) + ("\n" + Lines(records[1..]))
  }

  lemma DecodesAfterLevel(r: Record, time: string, level: string)
    requires ' ' !in r.fileName
    ensures DecodeAfterLevel(time, level, " " + TextFromFile(r))
         == DecodeFields(time, level, r.fileName, IntText(r.lineNum), r.message)
  {
    Tail(' ', TextFromFile(r));
    CutAt(r.fileName, ' ', TextFromLine(r));
    IntTextParses(r.lineNum);
    CutAt(IntText(r.lineNum), ' ', TextFromMessage(r));
    assert TextFromMessage(r)[..|TextFromMessage(r)| - 1] == r.message;
  }

  lemma DecodesAfterTime(r: Record, time: string)
    ensures DecodeAfterTime(time, "[" + TextFromLevel(r))
         == DecodeAfterLevel(time, LevelText(r.level), " " + TextFromFile(r))
  {
    var rest := " " + TextFromFile(r);
    Tail('[', TextFromLevel(r));
    LevelTextParses(r.level);
    assert "] " + TextFromFile(r) == [']'] + rest;
    CutAt(LevelText(r.level), ']', rest);
  }

  lemma DecodesLine(r: Record)
    requires ' ' !in r.fileName
    ensures DecodeLine(LineText(r)) == Some(r)
  {
    var rest := "[" + TextFromLevel(r);
    NatTextParses(r.time);
    assert " [" + TextFromLevel(r) == [' '] + rest;
    CutAt(NatText(r.time), ' ', rest);
    DecodesAfterTime(r, NatText(r.time));
    DecodesAfterLevel(r, NatText(r.time), LevelText(r.level));
    DecodesFields(r);
  }

  lemma DecodesFields(r: Record)
    ensures DecodeFields(NatText(r.time), LevelText(r.level), r.fileName, IntText(r.lineNum), r.message) == Some(r)
  {
    NatTextParses(r.time);
    LevelTextParses(r.level);
    IntTextParses(r.lineNum);
  }

  lemma LineShape(r: Record)
    ensures LineText(r) != "" && IsDigit(LineText(r)[0])
    ensures LineText(r)[|LineText(r)| - 1] == ' '
  {
    NatTextParses(r.time);
  }

  lemma NoNewline(r: Record)
    requires CleanRecord(r)
    ensures '\n' !in LineText(r)
  {
    IntTextParses(r.lineNum);
    LevelTextParses(r.level);
    assert '\n' !in TextFromLine(r);
    assert '\n' !in TextFromFile(r);
    assert '\n' !in TextFromLevel(r);
    NatTextParses(r.time);
  }

  /** The reader recovers any sequence of clean records from their lines. */
  lemma {:induction false} DecodesLines(records: seq<Record>)
    requires forall r :: r in records ==> CleanRecord(r)
    ensures DecodeBody(Lines(records)) == Some(records)
  {
    if records != [] {
      DecodesLines(records[1..]);
      DecodesFirst(records[0], Lines(records[1..]));
      assert records == [records[0]] + records[1..];
    }
  }

  lemma DecodesFirst(r: Record, rest: string)
    requires CleanRecord(r) && DecodeBody(rest).Some?
    ensures DecodeBody(LineText(r) + ("\n" + rest)) == Some([r] + DecodeBody(rest).value)
  {
    NoNewline(r);
    CutAt(LineText(r), '\n', rest);
    DecodesLine(r);
  }

  // ---- The opening and closing lines -------------------------------------------------------------

  lemma {:induction false} LinesShape(records: seq<Record>)
    requires records != []
    ensures Lines(records) != "" && IsDigit(Lines(records)[0])
    ensures |Lines(records)| >= 2 && Lines(records)[|Lines(records)| - 2..] == " \n"
  {
    LineShape(records[0]);
    var line, rest := LineText(records[0]), Lines(records[1..]);
    if records[1..] == [] {
      assert Lines(records) == line + "\n";
    } else {
      LinesShape(records[1..]);
      assert Lines(records)[|Lines(records)| - 2..] == rest[|rest| - 2..];
    }
  }

  lemma DropsHeader(header: bool, footer: bool, body: string)
    requires body == "" || IsDigit(body[0])
    ensures DropHeader((if header then HEADER else "") + (body + (if footer then FOOTER else "")))
         == body + (if footer then FOOTER else "")
  {
    var tail := body + (if footer then FOOTER else "");
    if header {
      assert (HEADER + tail)[|HEADER|..] == tail;
    } else {
      Unit(tail);
      assert tail == "" || IsDigit(tail[0]) || tail == FOOTER;
      assert HEADER[0] == 'l' && HEADER[4] == 's' && FOOTER[4] == 'e';
      assert !(HEADER <= tail);
    }
  }

  lemma DropsFooter(footer: bool, body: string)
    requires body == "" || (|body| >= 2 && body[|body| - 2..] == " \n")
    ensures DropFooter(body + (if footer then FOOTER else "")) == body
  {
    if footer {
      assert (body + FOOTER)[|body|..] == FOOTER;
      assert (body + FOOTER)[..|body|] == body;
    } else {
      Unit(body);
      if |FOOTER| <= |body| {
        assert body[|body| - 2] == body[|body| - 2..][0] == ' ';
        assert body[|body| - |FOOTER|..][|FOOTER| - 2] == ' ' && FOOTER[|FOOTER| - 2] == 'd';
      }
    }
  }

  // ---- Only clean records can be read back -------------------------------------------------------

  lemma CutKeepsOut(s: string, c: char, d: char)
    requires d !in s && Cut(s, c).Some?
    ensures d !in Cut(s, c).value.0 && d !in Cut(s, c).value.1
  {
  }

  lemma DecodedAfterLevelIsClean(time: string, level: string, s: string)
    requires '\n' !in s && DecodeAfterLevel(time, level, s).Some?
    ensures CleanRecord(DecodeAfterLevel(time, level, s).value)
  {
    CutKeepsOut(s[1..], ' ', '\n');
    CutKeepsOut(Cut(s[1..], ' ').value.1, ' ', '\n');
  }

  lemma DecodedLineIsClean(line: string)
    requires '\n' !in line && DecodeLine(line).Some?
    ensures CleanRecord(DecodeLine(line).value)
  {
    CutKeepsOut(line, ' ', '\n');
    var (time, s) := Cut(line, ' ').value;
    CutKeepsOut(s[1..], ']', '\n');
    var (level, rest) := Cut(s[1..], ']').value;
    DecodedAfterLevelIsClean(time, level, rest);
  }

  /** Whatever a log file says, the records read from it are clean. */
  lemma {:induction false} DecodedIsClean(body: string)
    requires DecodeBody(body).Some?
    ensures forall r :: r in DecodeBody(body).value ==> CleanRecord(r)
    decreases |body|
  {
    if body != "" {
      var (line, rest) := Cut(body, '\n').value;
      DecodedLineIsClean(line);
      DecodedIsClean(rest);
    }
  }

  /** A log file, with or without the opening and closing lines, gives back its records exactly when they are clean. */
  lemma DecodesLog(header: bool, footer: bool, records: seq<Record>)
    ensures DecodeLog((if header then HEADER else "") + (Lines(records) + (if footer then FOOTER else ""))) == Some(records)
       <==> forall r :: r in records ==> CleanRecord(r)
  {
    if records != [] {
      LinesShape(records);
    }
    DropsHeader(header, footer, Lines(records));
    DropsFooter(footer, Lines(records));
    if forall r :: r in records ==> CleanRecord(r) {
      DecodesLines(records);
    } else if DecodeBody(Lines(records)).Some? {
      DecodedIsClean(Lines(records));
    }
  }

  // ---- Why the texts must be clean ---------------------------------------------------------------

  /** A space in a file name can move a number from the line field into the name. */
  lemma SpaceCollides(r: Record, shift: int)
    ensures LineText(r.(fileName := r.fileName + (" " + IntText(shift))))
         == LineText(r.(lineNum := shift, message := IntText(r.lineNum) + (" " + r.message)))
  {
  }

  /** A newline in a message can hide a whole record. */
  lemma NewlineCollides(a: Record, b: Record)
    ensures var line := LineText(b);
            Lines([a, b]) == Lines([a.(message := a.message + (" \n" + line[..|line| - 1]))])
  {
    var line := LineText(b);
    LineShape(b);
    assert line[..|line| - 1] + " " == line;
    JoinLines(a, b, line[..|line| - 1]);
  }

  lemma JoinLines(a: Record, b: Record, text: string)
    requires LineText(b) == text + " "
    ensures Lines([a, b]) == Lines([a.(message := a.message + (" \n" + text))])
  {
    var line, hidden := LineText(b), a.(message := a.message + (" \n" + text));
    assert TextFromMessage(hidden) == TextFromMessage(a) + ("\n" + line);
    HiddenInMessage(a, hidden, "\n" + line);
    OneLine(hidden);
    OneLine(b);
    Tail(a, [b]);
    assert Lines([a] + [b]) == LineText(a) + ("\n" + Lines([b]));
    Assoc(LineText(a), "\n" + line, "\n");
    Assoc("\n", line, "\n");
  }

  lemma OneLine(r: Record)
    ensures Lines([r]) == LineText(r) + "\n"
  {
  }

  lemma HiddenInMessage(a: Record, b: Record, tail: string)
    requires b == a.(message := b.message) && TextFromMessage(b) == TextFromMessage(a) + tail
    ensures LineText(b) == LineText(a) + tail
  {
  }
}
