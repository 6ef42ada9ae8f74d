/** What a pattern means, and the laws that relate compiling, rendering, printing and concatenation. */
module PatternLaws {
  import opened Wrappers
  import opened LogTypes
  import opened Sequences
  import opened Text
  import opened Formatter

  // ---- The direct reading of a pattern, without items -------------------------------------------

  /** One step of the scan takes a plain character, or a '%' with the character after it. */
  function StepLength(pattern: string): nat
    requires pattern != ""
  {
    if pattern[0] != '%' || |pattern| == 1 then 1 else 2
  }

  function StepText(pattern: string, level: Level, event: LogEvent): string
    requires pattern != ""
  {
    if pattern[0] != '%' then [pattern[0]]
    else if |pattern| == 1 then ""
    else if pattern[1] == '%' then "%"
    else ItemText(Directive(pattern[1]), level, event)
  }

  function Interpret(pattern: string, level: Level, event: LogEvent): string {
    if pattern == "" then
      ""
    else
      StepText(pattern, level, event) + Interpret(pattern[StepLength(pattern)..], level, event)
  }

  lemma {:induction false} FormatConcat(a: seq<Item>, b: seq<Item>, level: Level, event: LogEvent)
    ensures FormatItems(a + b, level, event) == FormatItems(a, level, event) + FormatItems(b, level, event)
  {
    if a == [] {
      Unit(b);
      Unit(FormatItems(b, level, event));
    } else {
      FormatConcat(a[1..], b, level, event);
      assert (a + b)[1..] == a[1..] + b;
      Assoc(ItemText(a[0], level, event), FormatItems(a[1..], level, event), FormatItems(b, level, event));
    }
  }

  /** Compiling and then formatting is the direct reading, after whatever literal text was pending. */
  lemma {:induction false} CompilePreservesMeaning(pattern: string, pending: string, level: Level, event: LogEvent)
    ensures FormatItems(Compile(pattern, pending).items, level, event) == pending + Interpret(pattern, level, event)
  {
    if pattern == "" || pattern == "%" {
      FlushText(pending, level, event);
    } else {
      var rest := pattern[StepLength(pattern)..];
      var text := StepText(pattern, level, event);
      Assoc(pending, text, Interpret(rest, level, event));
      if pattern[0] == '%' && pattern[1] != '%' {
        CompilePreservesMeaning(rest, "", level, event);
        Unit(Interpret(rest, level, event));
        DirectiveMeaning(pending, Directive(pattern[1]), Compile(rest, "").items, level, event);
      } else {
        CompilePreservesMeaning(rest, pending + text, level, event);
      }
    }
  }

  lemma FlushText(pending: string, level: Level, event: LogEvent)
    ensures FormatItems(Flush(pending), level, event) == pending
  {
  }

  lemma DirectiveMeaning(pending: string, item: Item, rest: seq<Item>, level: Level, event: LogEvent)
    ensures FormatItems(Flush(pending) + [item] + rest, level, event)
         == pending + (ItemText(item, level, event) + FormatItems(rest, level, event))
  {
  }

  lemma CompiledMeans(pattern: string, level: Level, event: LogEvent)
    ensures FormatItems(Compile(pattern, "").items, level, event) == Interpret(pattern, level, event)
  {
    CompilePreservesMeaning(pattern, "", level, event);
    Unit(Interpret(pattern, level, event));
  }

  lemma DirectiveAlone(c: char, level: Level, event: LogEvent)
    requires c != '%'
    ensures !Dangling(['%', c]) && Interpret(['%', c], level, event) == ItemText(Directive(c), level, event)
  {
    assert ['%', c][2..] == [];
    Unit(ItemText(Directive(c), level, event));
  }

  /** What each directive renders; any other letter renders a fixed text. */
  lemma DirectiveTexts(c: char, level: Level, event: LogEvent)
    requires c != '%'
    ensures c == 'm' ==> Interpret(['%', c], level, event) == event.message
    ensures c == 'c' || c == 'f' ==> Interpret(['%', c], level, event) == event.fileName
    ensures c == 'r' ==> Interpret(['%', c], level, event) == "ms" + NatText(event.msElapse)
    ensures c == 't' ==> Interpret(['%', c], level, event) == "id" + NatText(event.threadId)
    ensures c == 'd' ==> Interpret(['%', c], level, event) == NatText(event.time)
    ensures c == 'l' ==> Interpret(['%', c], level, event) == IntText(event.lineNum)
    ensures c == 'n' ==> Interpret(['%', c], level, event) == "\n"
    ensures c !in "mprctndfl" ==> Interpret(['%', c], level, event) == "<wrong format>"
  {
    DirectiveAlone(c, level, event);
    PrintInvertsTable(c);
  }

  lemma LevelTexts(event: LogEvent)
    ensures Interpret("%p", INFO, event) == "INFO" && Interpret("%p", DEBUG, event) == "DEBUG"
    ensures Interpret("%p", WARN, event) == "WARN" && Interpret("%p", ERROR, event) == "ERROR"
    ensures Interpret("%p", FATAL, event) == "FATAL" && Interpret("%p", OTHER, event) == "UNKNOWN"
  {
    DirectiveAlone('p', INFO, event);
    DirectiveAlone('p', DEBUG, event);
    DirectiveAlone('p', WARN, event);
    DirectiveAlone('p', ERROR, event);
    DirectiveAlone('p', FATAL, event);
    DirectiveAlone('p', OTHER, event);
  }

  // ---- Which patterns are in error, and which lose their last character --------------------------

  /** How many '%' stand immediately before position `i`. */
  function RunBefore(pattern: string, i: nat): nat
    requires i <= |pattern|
  {
    if i == 0 || pattern[i - 1] != '%' then 0 else 1 + RunBefore(pattern, i - 1)
  }

  /** A '%' that ends an odd run and is followed by a character outside the table. */
  predicate UnknownDirectiveAt(pattern: string, i: nat) {
    && i + 1 < |pattern|
    && pattern[i] == '%' && pattern[i + 1] != '%'
    && RunBefore(pattern, i) % 2 == 0
    && Lookup(pattern[i + 1]).None?
  }

  lemma {:induction false} ErrorFrom(pattern: string, i: nat, pending: string)
    requires i <= |pattern| && RunBefore(pattern, i) % 2 == 0
    ensures Compile(pattern[i..], pending).error <==> exists k :: i <= k && UnknownDirectiveAt(pattern, k)
    decreases |pattern| - i
  {
    var rest := pattern[i..];
    if i == |pattern| {
    } else if pattern[i] != '%' {
      assert rest[1..] == pattern[i + 1..];
      assert !UnknownDirectiveAt(pattern, i);
      ErrorFrom(pattern, i + 1, pending + [pattern[i]]);
    } else if i + 1 == |pattern| {
    } else {
      assert rest[2..] == pattern[i + 2..];
      assert RunBefore(pattern, i + 1) == RunBefore(pattern, i) + 1;
      assert !UnknownDirectiveAt(pattern, i + 1);
      if pattern[i + 1] == '%' {
        assert !UnknownDirectiveAt(pattern, i);
        ErrorFrom(pattern, i + 2, pending + "%");
      } else {
        ErrorFrom(pattern, i + 2, "");
        assert UnknownDirectiveAt(pattern, i) <==> Lookup(pattern[i + 1]).None?;
      }
    }
  }

  /** The error flag, by counting: an unknown character after an odd run of '%'. */
  lemma ErrorIffUnknownDirective(pattern: string)
    ensures Compile(pattern, "").error <==> exists k :: UnknownDirectiveAt(pattern, k)
  {
    assert pattern[0..] == pattern;
    ErrorFrom(pattern, 0, "");
  }

  /** The scan ends on a lone '%', which is dropped. */
  predicate Dangling(pattern: string) {
    pattern != "" && (pattern == "%" || Dangling(pattern[StepLength(pattern)..]))
  }

  lemma {:induction false} DanglingFrom(pattern: string, i: nat)
    requires i <= |pattern| && RunBefore(pattern, i) % 2 == 0
    ensures Dangling(pattern[i..]) <==> RunBefore(pattern, |pattern|) % 2 == 1
    decreases |pattern| - i
  {
    var rest := pattern[i..];
    if i == |pattern| {
    } else if pattern[i] != '%' {
      assert rest[1..] == pattern[i + 1..];
      DanglingFrom(pattern, i + 1);
    } else if i + 1 == |pattern| {
    } else {
      assert rest[2..] == pattern[i + 2..];
      assert RunBefore(pattern, i + 1) == RunBefore(pattern, i) + 1;
      DanglingFrom(pattern, i + 2);
    }
  }

  /** A pattern dangles exactly when it ends in an odd run of '%'. */
  lemma DanglingIffOddTail(pattern: string)
    ensures Dangling(pattern) <==> RunBefore(pattern, |pattern|) % 2 == 1
  {
    assert pattern[0..] == pattern;
    DanglingFrom(pattern, 0);
  }

  // ---- Concatenation -----------------------------------------------------------------------------

  lemma {:induction false} ConcatFrom(p: string, q: string, level: Level, event: LogEvent)
    requires !Dangling(p)
    ensures Interpret(p + q, level, event) == Interpret(p, level, event) + Interpret(q, level, event)
    decreases |p|
  {
    if p == "" {
      assert p + q == q;
    } else {
      StepOfConcat(p, q, level, event);
      ConcatFrom(p[StepLength(p)..], q, level, event);
      Assoc(StepText(p, level, event), Interpret(p[StepLength(p)..], level, event), Interpret(q, level, event));
    }
  }

  lemma StepOfConcat(p: string, q: string, level: Level, event: LogEvent)
    requires p != "" && p != "%"
    ensures StepLength(p + q) == StepLength(p) <= |p|
    ensures StepText(p + q, level, event) == StepText(p, level, event)
    ensures (p + q)[StepLength(p)..] == p[StepLength(p)..] + q
  {
  }

  lemma {:induction false} ConcatErrors(p: string, q: string, pending: string)
    requires !Dangling(p)
    ensures Compile(p + q, pending).error <==> Compile(p, pending).error || Compile(q, "").error
    decreases |p|
  {
    var whole := p + q;
    if p == "" {
      assert whole == q;
      PendingKeepsError(q, pending, "");
    } else if p[0] != '%' {
      assert whole[1..] == p[1..] + q;
      ConcatErrors(p[1..], q, pending + [p[0]]);
    } else {
      assert whole[2..] == p[2..] + q;
      ConcatErrors(p[2..], q, if p[1] == '%' then pending + "%" else "");
    }
  }

  lemma PendingKeepsError(pattern: string, a: string, b: string)
    ensures Compile(pattern, a).error == Compile(pattern, b).error
  {
    assert pattern[0..] == pattern;
    ErrorFrom(pattern, 0, a);
    ErrorFrom(pattern, 0, b);
  }

  lemma {:induction false} DanglingLosesPercent(p: string, level: Level, event: LogEvent)
    requires Dangling(p)
    ensures Interpret(p + "%", level, event) == Interpret(p, level, event) + "%"
  {
    if p == "%" {
      assert (p + "%")[2..] == "";
    } else {
      StepOfConcat(p, "%", level, event);
      DanglingLosesPercent(p[StepLength(p)..], level, event);
      Assoc(StepText(p, level, event), Interpret(p[StepLength(p)..], level, event), "%");
    }
  }

  /** Concatenating patterns concatenates what they render, whatever follows, exactly when the first does not dangle. */
  lemma ConcatIffNotDangling(p: string, level: Level, event: LogEvent)
    ensures !Dangling(p) <==>
            forall q :: Interpret(p + q, level, event) == Interpret(p, level, event) + Interpret(q, level, event)
  {
    if Dangling(p) {
      DanglingLosesPercent(p, level, event);
      assert Interpret("%", level, event) == "";
    } else {
      forall q ensures Interpret(p + q, level, event) == Interpret(p, level, event) + Interpret(q, level, event) {
        ConcatFrom(p, q, level, event);
      }
    }
  }

  /** The same law on compiled items, across which literals may merge at the seam. */
  lemma ConcatCompiles(p: string, q: string, level: Level, event: LogEvent)
    requires !Dangling(p)
    ensures FormatItems(Compile(p + q, "").items, level, event)
         == FormatItems(Compile(p, "").items, level, event) + FormatItems(Compile(q, "").items, level, event)
    ensures Compile(p + q, "").error <==> Compile(p, "").error || Compile(q, "").error
  {
    ConcatRenders(p, q, level, event);
    ConcatErrors(p, q, "");
  }

  lemma ConcatRenders(p: string, q: string, level: Level, event: LogEvent)
    requires !Dangling(p)
    ensures FormatItems(Compile(p + q, "").items, level, event)
         == FormatItems(Compile(p, "").items, level, event) + FormatItems(Compile(q, "").items, level, event)
  {
    ConcatFrom(p, q, level, event);
    CompiledMeans(p + q, level, event);
    CompiledMeans(p, level, event);
    CompiledMeans(q, level, event);
  }

  // ---- Printing items back -----------------------------------------------------------------------

  function EscapeOne(c: char): string {
    if c == '%' then "%%" else [c]
  }

  function Escape(text: string): string {
    if text == "" then "" else EscapeOne(text[0]) + Escape(text[1..])
  }

  function PrintItem(item: Item): string {
    match item
    case Message => "%m"
    case LevelName => "%p"
    case MsElapse => "%r"
    case FileName => "%f"
    case ThreadId => "%t"
    case NewLine => "%n"
    case Time => "%d"
    case LineNum => "%l"
    case Literal(text) => Escape(text)
  }

  /** The printer's letter for a directive is one that the table maps to it; only 'c' is a second name. */
  lemma PrintInvertsTable(c: char)
    ensures Lookup(c).Some? <==> c in "mprctndfl"
    ensures Lookup(c).Some? ==> PrintItem(Lookup(c).value) == (if c == 'c' then "%f" else ['%', c])
  {
  }

  function PrintItems(items: seq<Item>): string {
    if items == [] then "" else PrintItem(items[0]) + PrintItems(items[1..])
  }

  /** No empty literal, and no two literals side by side. */
  predicate NormalForm(items: seq<Item>) {
    items == [] ||
    (&& items[0] != Literal("")
     && !(items[0].Literal? && |items| > 1 && items[1].Literal?)
     && NormalForm(items[1..]))
  }

  lemma CompileOneCharacter(c: char, rest: string, pending: string)
    ensures Compile(EscapeOne(c) + rest, pending) == Compile(rest, pending + [c])
  {
  }

  lemma {:induction false} CompileEscaped(text: string, rest: string, pending: string)
    ensures Compile(Escape(text) + rest, pending) == Compile(rest, pending + text)
  {
    if text == "" {
      assert Escape(text) + rest == rest;
      assert pending + text == pending;
    } else {
      var later := Escape(text[1..]) + rest;
      assert Escape(text) + rest == EscapeOne(text[0]) + later;
      CompileOneCharacter(text[0], later, pending);
      CompileEscaped(text[1..], rest, pending + [text[0]]);
      assert pending + [text[0]] + text[1..] == pending + text;
    }
  }

  lemma CompileDirective(item: Item, rest: string, pending: string)
    requires !item.Literal?
    ensures Compile(PrintItem(item) + rest, pending)
         == Compiled(Flush(pending) + [item] + Compile(rest, "").items, Compile(rest, "").error)
  {
  }

  lemma PrintedDirective(item: Item, tail: seq<Item>, pending: string)
    requires !item.Literal? && Compile(PrintItems(tail), "") == Compiled(tail, false)
    ensures Compile(PrintItems([item] + tail), pending) == Compiled(Flush(pending) + ([item] + tail), false)
  {
    Tail(item, tail);
    assert PrintItems([item] + tail) == PrintItem(item) + PrintItems(tail);
    CompileDirective(item, PrintItems(tail), pending);
    Assoc(Flush(pending), [item], tail);
  }

  lemma PrintedLiteral(text: string, tail: seq<Item>)
    requires text != "" && Compile(PrintItems(tail), text) == Compiled([Literal(text)] + tail, false)
    ensures Compile(PrintItems([Literal(text)] + tail), "") == Compiled([Literal(text)] + tail, false)
  {
    Tail(Literal(text), tail);
    assert PrintItems([Literal(text)] + tail) == Escape(text) + PrintItems(tail);
    CompileEscaped(text, PrintItems(tail), "");
    Unit(text);
  }

  lemma {:induction false} CompilePrinted(items: seq<Item>, pending: string)
    requires NormalForm(items)
    requires pending != "" && items != [] ==> !items[0].Literal?
    ensures Compile(PrintItems(items), pending) == Compiled(Flush(pending) + items, false)
    decreases |items|
  {
    if items == [] {
      assert Flush(pending) + items == Flush(pending);
    } else {
      var item, tail := items[0], items[1..];
      assert items == [item] + tail;
      if item.Literal? {
        CompilePrinted(tail, item.text);
        PrintedLiteral(item.text, tail);
        assert Flush(pending) + items == items;
      } else {
        CompilePrinted(tail, "");
        assert Flush("") + tail == tail;
        PrintedDirective(item, tail, pending);
      }
    }
  }

  /** The parser undoes the printer on every item list in normal form. */
  lemma ParseUndoesPrint(items: seq<Item>)
    requires NormalForm(items)
    ensures Compile(PrintItems(items), "") == Compiled(items, false)
  {
    CompilePrinted(items, "");
  }

  lemma {:induction false} CompileNormal(pattern: string, pending: string)
    requires !Compile(pattern, pending).error
    ensures var items := Compile(pattern, pending).items;
            NormalForm(items) && (pending != "" ==> items != [] && items[0].Literal?)
    decreases |pattern|
  {
    if pattern == "" {
    } else if pattern[0] != '%' {
      CompileNormal(pattern[1..], pending + [pattern[0]]);
    } else if |pattern| == 1 {
    } else if pattern[1] == '%' {
      CompileNormal(pattern[2..], pending + "%");
    } else {
      CompileNormal(pattern[2..], "");
    }
  }

  /** On a pattern without error the printer undoes the parser, up to one canonical spelling. */
  lemma PrintUndoesParse(pattern: string)
    requires !Compile(pattern, "").error
    ensures Compile(PrintItems(Compile(pattern, "").items), "") == Compile(pattern, "")
  {
    CompileNormal(pattern, "");
    ParseUndoesPrint(Compile(pattern, "").items);
  }

  lemma {:induction false} InterpretPrinted(items: seq<Item>, level: Level, event: LogEvent)
    ensures Interpret(PrintItems(items), level, event) == FormatItems(items, level, event)
    ensures !Dangling(PrintItems(items))
  {
    if items != [] {
      InterpretPrinted(items[1..], level, event);
      PrintedItem(items[0], level, event);
      ConcatFrom(PrintItem(items[0]), PrintItems(items[1..]), level, event);
      DanglingConcat(PrintItem(items[0]), PrintItems(items[1..]));
    }
  }

  lemma {:induction false} DanglingConcat(p: string, q: string)
    requires !Dangling(p)
    ensures Dangling(p + q) == Dangling(q)
    decreases |p|
  {
    if p == "" {
      Unit(q);
    } else {
      assert (p + q)[StepLength(p)..] == p[StepLength(p)..] + q;
      DanglingConcat(p[StepLength(p)..], q);
    }
  }

  lemma PrintedLetter(item: Item) returns (c: char)
    requires !item.Literal?
    ensures c != '%' && PrintItem(item) == ['%', c] && Directive(c) == item
  {
    c := PrintItem(item)[1];
  }

  lemma PrintedItem(item: Item, level: Level, event: LogEvent)
    ensures !Dangling(PrintItem(item))
    ensures Interpret(PrintItem(item), level, event) == ItemText(item, level, event)
  {
    if item.Literal? {
      EscapedText(item.text, level, event);
    } else {
      var c := PrintedLetter(item);
      DirectiveAlone(c, level, event);
    }
  }

  lemma {:induction false} EscapedText(text: string, level: Level, event: LogEvent)
    ensures !Dangling(Escape(text)) && Interpret(Escape(text), level, event) == text
  {
    if text != "" {
      EscapedText(text[1..], level, event);
      assert Escape(text)[|EscapeOne(text[0])|..] == Escape(text[1..]);
    }
  }

  /** Printing what was parsed and parsing it again renders the same, even for a pattern in error. */
  lemma ReparseKeepsMeaning(pattern: string, level: Level, event: LogEvent)
    ensures FormatItems(Compile(PrintItems(Compile(pattern, "").items), "").items, level, event)
         == Interpret(pattern, level, event)
  {
    var items := Compile(pattern, "").items;
    InterpretPrinted(items, level, event);
    CompiledMeans(PrintItems(items), level, event);
    CompiledMeans(pattern, level, event);
  }
}
