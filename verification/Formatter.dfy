/** The log pattern compiler: `Formatter::Parse` and `Formatter::format`. */
module Formatter {
  import opened Wrappers
  import opened LogTypes
  import opened Sequences
  import opened Text

  datatype Item =
    | Message | LevelName | MsElapse | FileName | ThreadId | NewLine | Time | LineNum
    | Literal(text: string)

  /** The directive table. Both 'c' and 'f' stand for the file name. */
  function Lookup(c: char): Option<Item> {
    if c == 'm' then Some(Message)
    else if c == 'p' then Some(LevelName)
    else if c == 'r' then Some(MsElapse)
    else if c == 'c' then Some(FileName)
    else if c == 't' then Some(ThreadId)
    else if c == 'n' then Some(NewLine)
    else if c == 'd' then Some(Time)
    else if c == 'f' then Some(FileName)
    else if c == 'l' then Some(LineNum)
    else None
  }

  const WRONG_FORMAT := "<wrong format>"

  function Directive(c: char): Item {
    match Lookup(c)
    case Some(item) => item
    case None => Literal(WRONG_FORMAT)
  }

  function ItemText(item: Item, level: Level, event: LogEvent): string {
    match item
    case Message => event.message
    case LevelName => LevelText(level)
    case MsElapse => "ms" + NatText(event.msElapse)
    case FileName => event.fileName
    case ThreadId => "id" + NatText(event.threadId)
    case NewLine => "\n"
    case Time => NatText(event.time)
    case LineNum => IntText(event.lineNum)
    case Literal(text) => text
  }

  function FormatItems(items: seq<Item>, level: Level, event: LogEvent): string {
    if items == [] then "" else ItemText(items[0], level, event) + FormatItems(items[1..], level, event)
  }

  datatype Compiled = Compiled(items: seq<Item>, error: bool)

  function Flush(pending: string): seq<Item> {
    if pending == "" then [] else [Literal(pending)]
  }

  /** What the scan makes of the rest of a pattern, `pending` being the literal text not yet emitted. */
  function Compile(pattern: string, pending: string): Compiled {
    if pattern == "" then
      Compiled(Flush(pending), false)
    else if pattern[0] != '%' then
      Compile(pattern[1..], pending + [pattern[0]])
    else if |pattern| == 1 then
      Compiled(Flush(pending), false)
    else if pattern[1] == '%' then
      Compile(pattern[2..], pending + "%")
    else
      var rest := Compile(pattern[2..], "");
      Compiled(Flush(pending) + [Directive(pattern[1])] + rest.items, Lookup(pattern[1]).None? || rest.error)
  }

  class Formatter {
    const pattern: string
    var formatItems: seq<Item>
    var error: bool

    constructor (pattern: string)
      ensures this.pattern == pattern
      ensures Compiled(formatItems, error) == Compile(pattern, "")
    {
      this.pattern := pattern;
      formatItems, error := [], false;
      new;
      Parse();
    }

    method Parse()
      requires formatItems == [] && !error
      modifies this
      ensures Compiled(formatItems, error) == Compile(pattern, "")
    {
      var pending := "";
      var i := 0;
      while i < |pattern|
        invariant 0 <= i <= |pattern|
        invariant formatItems + Compile(pattern[i..], pending).items == Compile(pattern, "").items
        invariant (error || Compile(pattern[i..], pending).error) == Compile(pattern, "").error
        decreases |pattern| - i
      {
        if pattern[i] != '%' {
          pending := pending + [pattern[i]];
          i := i + 1;
          continue;
        }
        if i + 1 >= |pattern| {
          break;
        }
        assert pattern[i..][2..] == pattern[i + 2..];
        if pattern[i + 1] == '%' {
          pending := pending + "%";
          i := i + 2;
          continue;
        }
        if pending != "" {
          formatItems := formatItems + [Literal(pending)];
          pending := "";
        }
        match Lookup(pattern[i + 1]) {
          case Some(item) =>
            formatItems := formatItems + [item];
          case None =>
            formatItems := formatItems + [Literal(WRONG_FORMAT)];
            error := true;
        }
        i := i + 2;
      }
      if pending != "" {
        formatItems := formatItems + [Literal(pending)];
      }
    }

    method Format(level: Level, event: LogEvent) returns (stream: string)
      ensures stream == FormatItems(formatItems, level, event)
    {
      stream := "";
      for i := 0 to |formatItems|
        invariant stream + FormatItems(formatItems[i..], level, event) == FormatItems(formatItems, level, event)
      {
        assert formatItems[i..][1..] == formatItems[i + 1..];
        Assoc(stream, ItemText(formatItems[i], level, event), FormatItems(formatItems[i + 1..], level, event));
        stream := stream + ItemText(formatItems[i], level, event);
      }
    }
  }
}
