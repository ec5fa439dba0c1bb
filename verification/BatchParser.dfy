/**
 The batch script parser over text (internal/batch/parser.go): how a line is classified, the cursor-moving
 parser class, a canonical renderer, and the round trips between text and command trees.
 */
module BatchParser {
  import opened Common
  import opened BatchText
  import opened BatchGrammar

  function EchoMessage(args: seq<string>): string {
    if args == [] then "" else TrimQuotes(Join(args, ' '))
  }

  /** The command on a line that does not open a conditional. */
  function ParseSimple(parts: seq<string>): Result<Command>
    requires parts != []
  {
    if parts[0] == "echo" then Success(Echo(EchoMessage(parts[1..])))
    else if parts[0] == "exit" then
      if |parts| == 1 then Success(Exit(0)) else
      match Atoi(parts[1])
      case None => Failure(InvalidExit(parts[1]))
      case Some(code) => Success(Exit(code))
    else Success(Cli(parts[0], parts[1..]))
  }

  /** The words between `if` and `then`, if the line has that form. */
  function ConditionOf(parts: seq<string>): Option<string> {
    if |parts| < 3 || parts[|parts| - 1] != "then" then None
    else Some(Join(parts[1..|parts| - 1], ' '))
  }

  function KindOf(parts: seq<string>): Kind
    requires parts != []
  {
    if parts[0] == "if" then IfWord(ConditionOf(parts))
    else if parts[0] == "else" then ElseWord(Cli("else", parts[1..]))
    else if parts[0] == "fi" then FiWord(Cli("fi", parts[1..]))
    else OtherWord(ParseSimple(parts))
  }

  /** Splitting a kept line always yields a first word. */
  function Classify(line: string): Token
    requires Trimmed(line)
  {
    FieldsOfTrimmed(line);
    Token(line, KindOf(Fields(line)))
  }

  function Tokens(lines: seq<string>): (ts: seq<Token>)
    requires ScriptLines(lines)
    ensures |ts| == |lines| && forall i :: 0 <= i < |lines| ==> ts[i] == Classify(lines[i])
  {
    seq(|lines|, i requires 0 <= i < |lines| => Classify(lines[i]))
  }

  /** The lines the parser keeps of a source text. */
  function LinesOf(source: string): (lines: seq<string>)
    ensures ScriptLines(lines) && ShortLines(lines)
  {
    ScannedLinesFrom("", source);
    KeptLines(Scan(source));
    Keep(Scan(source))
  }

  function ParseText(source: string): Parsed<seq<Command>> {
    ParseBlock(Tokens(LinesOf(source)), 0, Top)
  }

  /** What a kept line means, by its words, whatever white space separates them. */
  lemma LineMeans(line: string, word: string, args: seq<string>)
    requires ScriptLine(line) && Spread(line, [word] + args)
    ensures word == "echo" ==> Classify(line).kind == OtherWord(Success(Echo(TrimQuotes(Join(args, ' ')))))
    ensures word == "exit" && args == [] ==> Classify(line).kind == OtherWord(Success(Exit(0)))
    ensures word == "exit" && args != [] ==>
              Classify(line).kind == OtherWord(match Atoi(args[0]) case Some(n) => Success(Exit(n)) case None => Failure(InvalidExit(args[0])))
    ensures word == "if" ==>
              Classify(line).kind == IfWord(if |args| >= 2 && args[|args| - 1] == "then" then Some(Join(args[..|args| - 1], ' ')) else None)
    ensures word == "else" ==> Classify(line).kind == ElseWord(Cli("else", args))
    ensures word == "fi" ==> Classify(line).kind == FiWord(Cli("fi", args))
    ensures word !in {"echo", "exit", "if", "else", "fi"} ==> Classify(line).kind == OtherWord(Success(Cli(word, args)))
  {
    FieldsIff(line, [word] + args);
    var parts := [word] + args;
    assert parts[1..] == args;
    if |args| >= 2 {
      assert parts[1..|parts| - 1] == args[..|args| - 1];
    }
    if args == [] {
      assert TrimQuotes("") == "";
    }
  }

  /**
   Whatever white space surrounds the lines of a text, whatever blank lines and comments stand between, and whichever way
   lines end, the parser keeps the bare lines and parses those.
   */
  lemma WrittenTextParses(raw: seq<string>, lines: seq<string>)
    requires (forall i :: 0 <= i < |raw| ==> OneLine(raw[i]) && ByteLength(raw[i]) < 65536) && Written(raw, lines)
    ensures LinesOf(Terminated(raw)) == lines && ParseText(Terminated(raw)) == ParseBlock(Tokens(lines), 0, Top)
    ensures TextLines(raw) ==> LinesOf(Join(raw, '\n')) == lines && ParseText(Join(raw, '\n')) == ParseBlock(Tokens(lines), 0, Top)
  {
    KeepIff(raw, lines);
    KeepWithoutReturns(raw);
    ScanOfTerminated(raw);
    if TextLines(raw) {
      ScanOfText(raw);
    }
  }

  // ---- The parser as it runs ----

  datatype BatchScript = BatchScript(commands: seq<Command>, source: string)

  /** A parsing method returns what the grammar says and leaves the cursor there. */
  predicate Outcome<T(==)>(r: Result<T>, current: nat, parsed: Parsed<T>) {
    match parsed
    case Err(e, at) => r == Failure(e) && current == at
    case Ok(value, at) => r == Success(value) && current == at
  }

  class Parser {
    var lines: seq<string>
    var current: nat

    ghost predicate Valid()
      reads this
    {
      ScriptLines(lines) && ShortLines(lines) && current <= |lines|
    }

    constructor (source: string)
      ensures Valid() && lines == LinesOf(source) && current == 0
    {
      var kept: seq<string> := [];
      var scanned := Scan(source);
      for i := 0 to |scanned|
        invariant kept == Keep(scanned[..i])
      {
        var line := TrimSpace(scanned[i]);
        if line != "" && line[0] != '#' {
          kept := kept + [line];
        }
        assert scanned[..i + 1][..i] == scanned[..i];
      }
      assert scanned[..|scanned|] == scanned;
      ghost var expected := LinesOf(source);
      lines, current := kept, 0;
    }

    /** An error is reported with the number of the kept line at which it was found. */
    method Parse() returns (r: Result<BatchScript>, line: nat)
      requires Valid() && current == 0
      modifies this`current
      ensures match ParseBlock(Tokens(lines), 0, Top)
              case Err(e, at) => r == Failure(e) && line == at + 1
              case Ok(commands, at) => r == Success(BatchScript(commands, Join(lines, '\n'))) && current == at == |lines|
    {
      var parsed := ParseUntil(Top);
      line := current + 1;
      match parsed
      case Failure(e) => r := Failure(e);
      case Success(commands) => r := Success(BatchScript(commands, Join(lines, '\n')));
    }

    method ParseOne() returns (r: Result<Command>)
      requires Valid() && current < |lines|
      modifies this`current
      ensures Outcome(r, current, ParseCommand(Tokens(lines), old(current)))
      ensures old(current) <= current <= |lines|
      decreases |lines| - current, 1
    {
      match Classify(lines[current]).kind
      case IfWord(_) => r := ParseIf();
      case ElseWord(command) => r := Success(command);
      case FiWord(command) => r := Success(command);
      case OtherWord(parsed) => r := parsed;
    }

    method ParseIf() returns (r: Result<Command>)
      requires Valid() && current < |lines| && Classify(lines[current]).kind.IfWord?
      modifies this`current
      ensures Outcome(r, current, ParseConditional(Tokens(lines), old(current)))
      ensures old(current) <= current <= |lines|
      decreases |lines| - current, 0
    {
      ghost var ts := Tokens(lines);
      var condition := Classify(lines[current]).kind.condition;
      if condition.None? {
        return Failure(InvalidIf(lines[current]));
      }
      current := current + 1;
      var thenBlock := ParseUntil(Then);
      if thenBlock.Failure? {
        return Failure(thenBlock.error);
      }
      r := ParseElseAndFi(condition.value, thenBlock.value);
    }

    /** The second half of a conditional: an optional else-block, then `fi`. */
    method ParseElseAndFi(condition: string, thenBlock: seq<Command>) returns (r: Result<Command>)
      requires Valid() && (current < |lines| ==> Stops(Then, Classify(lines[current]).kind))
      modifies this`current
      ensures Outcome(r, current, ParseRest(Tokens(lines), condition, thenBlock, old(current)))
      ensures old(current) <= current <= |lines|
      decreases |lines| - current, 4
    {
      var elseBlock: seq<Command> := [];
      if current < |lines| && Classify(lines[current]).kind.ElseWord? {
        current := current + 1;
        var parsed := ParseUntil(Else);
        if parsed.Failure? {
          return Failure(parsed.error);
        }
        elseBlock := parsed.value;
      }
      if current >= |lines| || !Classify(lines[current]).kind.FiWord? {
        return Failure(MissingFi);
      }
      r := Success(If(condition, thenBlock, elseBlock));
    }

    /** One turn of a block loop: the next command is parsed and appended. */
    method ParseNext(level: Level, block: seq<Command>, ghost whole: Parsed<seq<Command>>) returns (r: Result<seq<Command>>)
      requires Valid() && current < |lines| && !Stops(level, Classify(lines[current]).kind)
      requires whole == Prepend(block, ParseBlock(Tokens(lines), current, level))
      modifies this`current
      ensures r.Failure? ==> Outcome(r, current, whole) && old(current) <= current <= |lines|
      ensures r.Success? ==> old(current) < current <= |lines| && whole == Prepend(r.value, ParseBlock(Tokens(lines), current, level))
      decreases |lines| - current, 2
    {
      ghost var ts := Tokens(lines);
      ghost var one := ParseCommand(ts, current);
      BlockStep(ts, current, level, block);
      var parsed := ParseOne();
      assert Outcome(parsed, current, one);
      if parsed.Failure? {
        return Failure(parsed.error);
      }
      r := Success(block + [parsed.value]);
      current := current + 1;
    }

    /** The loop over a whole script, a then-block (up to `else` or `fi`) or an else-block (up to `fi`). */
    method ParseUntil(level: Level) returns (r: Result<seq<Command>>)
      requires Valid()
      modifies this`current
      ensures Outcome(r, current, ParseBlock(Tokens(lines), old(current), level))
      ensures old(current) <= current <= |lines|
      decreases |lines| - current, 3
    {
      ghost var ts := Tokens(lines);
      var block: seq<Command> := [];
      ghost var whole := ParseBlock(ts, current, level);
      PrependNothing(whole);
      while current < |lines| && !Stops(level, Classify(lines[current]).kind)
        invariant old(current) <= current <= |lines|
        invariant whole == Prepend(block, ParseBlock(ts, current, level))
        decreases |lines| - current
      {
        var longer := ParseNext(level, block, whole);
        if longer.Failure? {
          return longer;
        }
        block := longer.value;
      }
      BlockEnd(ts, current, level, block);
      r := Success(block);
    }
  }

  // ---- The canonical renderer ----

  function Quoted(m: string): string {
    [QUOTE] + m + [QUOTE]
  }

  function RenderSimple(c: Command): string
    requires !c.If?
  {
    match c
    case Echo(m) => Join(["echo"] + Fields(Quoted(m)), ' ')
    case Exit(code) => Join(["exit", Itoa(code)], ' ')
    case Cli(name, args) => Join([name] + args, ' ')
  }

  function Render(c: Command): seq<string>
    decreases c, 1
  {
    match c
    case If(condition, thenBlock, elseBlock) =>
      [Join(["if"] + Fields(condition) + ["then"], ' ')] + RenderAll(thenBlock)
      + (if elseBlock == [] then [] else ["else"] + RenderAll(elseBlock)) + ["fi"]
    case _ => [RenderSimple(c)]
  }

  function RenderAll(cs: seq<Command>): seq<string>
    decreases cs, 0
  {
    if cs == [] then [] else Render(cs[0]) + RenderAll(cs[1..])
  }

  /** What a command tree must look like for some script line to produce it at this level. */
  ghost predicate WellFormed(level: Level, c: Command)
    decreases c, 1
  {
    match c
    case Echo(m) => Unquoted(m) && Spaced(m)
    case Exit(code) => FitsInt64(code)
    case Cli(name, args) =>
      && IsWord(name) && AllWords(args) && name[0] != '#'
      && name != "echo" && name != "exit" && name != "if"
      && (level.Then? ==> name != "else") && (!level.Top? ==> name != "fi")
    case If(condition, thenBlock, elseBlock) =>
      Trimmed(condition) && Spaced(condition) && WellFormedAll(Then, thenBlock) && WellFormedAll(Else, elseBlock)
  }

  ghost predicate WellFormedAll(level: Level, cs: seq<Command>)
    decreases cs, 0
  {
    cs != [] ==> WellFormed(level, cs[0]) && WellFormedAll(level, cs[1..])
  }

  lemma SpacedIsOneLine(s: string)
    requires Spaced(s)
    ensures OneLine(s)
  {
  }

  /** A line made of words reads back as those words. */
  lemma LineOfWords(ws: seq<string>)
    requires ws != [] && AllWords(ws) && ws[0][0] != '#'
    ensures ScriptLine(Join(ws, ' ')) && Fields(Join(ws, ' ')) == ws
  {
    JoinIsNormal(ws);
    SpacedIsOneLine(Join(ws, ' '));
    FieldsOfJoin(ws);
  }

  lemma QuotedIsNormal(m: string)
    requires Spaced(m)
    ensures Trimmed(Quoted(m)) && Spaced(Quoted(m))
  {
    var s := Quoted(m);
    forall i | 0 <= i < |s|
      ensures if i == 0 || i == |s| - 1 then s[i] == QUOTE else s[i] == m[i - 1]
    {
    }
  }

  lemma EchoReadsBack(m: string)
    requires Unquoted(m) && Spaced(m)
    ensures AllWords(Fields(Quoted(m))) && EchoMessage(Fields(Quoted(m))) == m
  {
    QuotedIsNormal(m);
    FieldsAreWords(Quoted(m));
    FieldsOfTrimmed(Quoted(m));
    JoinOfFields(Quoted(m));
    TrimQuotesOfQuoted(m);
  }

  /** A rendered simple command is classified, at its level, as that command. */
  ghost predicate ReadsBack(level: Level, line: string, c: Command) {
    ScriptLine(line) &&
    var kind := Classify(line).kind;
    && !kind.IfWord? && !Stops(level, kind) && (kind.OtherWord? ==> kind.parsed.Success?)
    && LineCommand(kind) == c
  }

  lemma EchoLineReadsBack(level: Level, m: string)
    requires WellFormed(level, Echo(m))
    ensures ReadsBack(level, RenderSimple(Echo(m)), Echo(m))
  {
    EchoReadsBack(m);
    EchoKind(Fields(Quoted(m)));
    LineOfWords(["echo"] + Fields(Quoted(m)));
  }

  lemma EchoKind(args: seq<string>)
    requires AllWords(args)
    ensures AllWords(["echo"] + args) && KindOf(["echo"] + args) == OtherWord(Success(Echo(EchoMessage(args))))
  {
    assert (["echo"] + args)[1..] == args;
  }

  lemma ExitLineReadsBack(level: Level, code: int)
    requires WellFormed(level, Exit(code))
    ensures ReadsBack(level, RenderSimple(Exit(code)), Exit(code))
  {
    ExitKind(code);
    LineOfWords(["exit", Itoa(code)]);
  }

  lemma ExitKind(code: int)
    requires FitsInt64(code)
    ensures AllWords(["exit", Itoa(code)]) && KindOf(["exit", Itoa(code)]) == OtherWord(Success(Exit(code)))
  {
    AtoiOfItoa(code);
  }

  lemma CliLineReadsBack(level: Level, name: string, args: seq<string>)
    requires WellFormed(level, Cli(name, args))
    ensures ReadsBack(level, RenderSimple(Cli(name, args)), Cli(name, args))
  {
    var words := [name] + args;
    LineOfWords(words);
    assert words[1..] == args;
  }

  lemma SimpleReadsBack(level: Level, c: Command)
    requires !c.If? && WellFormed(level, c)
    ensures ReadsBack(level, RenderSimple(c), c)
  {
    match c
    case Echo(m) => EchoLineReadsBack(level, m);
    case Exit(code) => ExitLineReadsBack(level, code);
    case Cli(name, args) => CliLineReadsBack(level, name, args);
  }

  lemma HeadReadsBack(condition: string)
    requires Trimmed(condition) && Spaced(condition)
    ensures var line := Join(["if"] + Fields(condition) + ["then"], ' ');
            ScriptLine(line) && Classify(line).kind == IfWord(Some(condition))
  {
    FieldsAreWords(condition);
    FieldsOfTrimmed(condition);
    var parts := ["if"] + Fields(condition) + ["then"];
    LineOfWords(parts);
    assert parts[1..|parts| - 1] == Fields(condition);
    JoinOfFields(condition);
  }

  lemma WordReadsBack()
    ensures ScriptLine("else") && Classify("else").kind.ElseWord?
    ensures ScriptLine("fi") && Classify("fi").kind.FiWord?
  {
    FieldsOfWord("else");
    FieldsOfWord("fi");
  }

  lemma TokensConcat(a: seq<string>, b: seq<string>)
    requires ScriptLines(a) && ScriptLines(b)
    ensures ScriptLines(a + b) && Tokens(a + b) == Tokens(a) + Tokens(b)
  {
  }

  /** The canonical rendering of a well-formed tree is a legal layout that means that tree. */
  lemma {:induction false} RenderIsLegal(level: Level, c: Command) returns (n: Node)
    requires WellFormed(level, c)
    ensures ScriptLines(Render(c)) && Legal(level, n) && Flatten(n) == Tokens(Render(c)) && Meaning(level, n) == c
    decreases c, 1
  {
    if c.If? {
      n := RenderIfIsLegal(level, c);
    } else {
      SimpleReadsBack(level, c);
      n := Line(Classify(RenderSimple(c)));
    }
  }

  lemma {:induction false} RenderIfIsLegal(level: Level, c: Command) returns (n: Node)
    requires WellFormed(level, c) && c.If?
    ensures ScriptLines(Render(c)) && Legal(level, n) && Flatten(n) == Tokens(Render(c)) && Meaning(level, n) == c
    decreases c, 0
  {
    var head := Join(["if"] + Fields(c.condition) + ["then"], ' ');
    HeadReadsBack(c.condition);
    WordReadsBack();
    var body := RenderAllIsLegal(Then, c.thenBlock);
    var otherwise := RenderAllIsLegal(Else, c.elseBlock);
    if c.elseBlock == [] {
      n := Conditional(Classify(head), body, None, [], Classify("fi"));
      ConditionalTokens(head, RenderAll(c.thenBlock), [], "fi");
    } else {
      n := Conditional(Classify(head), body, Some(Classify("else")), otherwise, Classify("fi"));
      TokensCons("else", RenderAll(c.elseBlock));
      ConditionalTokens(head, RenderAll(c.thenBlock), ["else"] + RenderAll(c.elseBlock), "fi");
    }
  }

  lemma TokensCons(line: string, lines: seq<string>)
    requires ScriptLine(line) && ScriptLines(lines)
    ensures ScriptLines([line] + lines) && Tokens([line] + lines) == [Classify(line)] + Tokens(lines)
  {
  }

  lemma ConditionalTokens(head: string, body: seq<string>, middle: seq<string>, tail: string)
    requires ScriptLine(head) && ScriptLines(body) && ScriptLines(middle) && ScriptLine(tail)
    ensures ScriptLines([head] + body + middle + [tail])
    ensures Tokens([head] + body + middle + [tail]) == [Classify(head)] + Tokens(body) + Tokens(middle) + [Classify(tail)]
  {
    TokensCons(head, body);
    TokensConcat([head] + body, middle);
    TokensConcat([head] + body + middle, [tail]);
    assert Tokens([tail]) == [Classify(tail)];
  }

  lemma {:induction false} RenderAllIsLegal(level: Level, cs: seq<Command>) returns (ns: seq<Node>)
    requires WellFormedAll(level, cs)
    ensures ScriptLines(RenderAll(cs)) && LegalAll(level, ns) && FlattenAll(ns) == Tokens(RenderAll(cs))
    ensures MeaningAll(level, ns) == cs && (cs == [] ==> ns == [])
    decreases cs, 0
  {
    if cs == [] {
      ns := [];
    } else {
      var n := RenderIsLegal(level, cs[0]);
      var more := RenderAllIsLegal(level, cs[1..]);
      ns := [n] + more;
      TokensConcat(Render(cs[0]), RenderAll(cs[1..]));
      assert ns[1..] == more;
    }
  }

  // ---- Whatever is parsed is well formed ----

  lemma SimpleIsWellFormed(level: Level, line: string)
    requires ScriptLine(line) && Legal(level, Line(Classify(line)))
    ensures WellFormed(level, LineCommand(Classify(line).kind))
  {
    FieldsOfTrimmed(line);
    FieldsAreWords(line);
    var parts := Fields(line);
    if parts[0] == "echo" && |parts| > 1 {
      JoinIsNormal(parts[1..]);
      var i, j := TrimQuotesIsPart(Join(parts[1..], ' '));
      SpacedPart(Join(parts[1..], ' '), i, j);
    }
  }

  lemma HeadIsWellFormed(line: string)
    requires ScriptLine(line) && Classify(line).kind.IfWord? && Classify(line).kind.condition.Some?
    ensures Trimmed(Classify(line).kind.condition.value) && Spaced(Classify(line).kind.condition.value)
  {
    FieldsAreWords(line);
    var parts := Fields(line);
    JoinIsNormal(parts[1..|parts| - 1]);
  }

  /** Every token of the layout comes from a kept line. */
  ghost predicate FromLines(ts: seq<Token>) {
    forall i :: 0 <= i < |ts| ==> ScriptLine(ts[i].text) && ts[i] == Classify(ts[i].text)
  }

  lemma {:induction false} MeaningIsWellFormed(level: Level, n: Node)
    requires Legal(level, n) && FromLines(Flatten(n))
    ensures WellFormed(level, Meaning(level, n))
    decreases n, 1
  {
    match n
    case Line(t) =>
      assert Flatten(n)[0] == t;
      SimpleIsWellFormed(level, t.text);
    case Conditional(head, body, alternative, otherwise, tail) =>
      assert Flatten(n)[0] == head;
      HeadIsWellFormed(head.text);
      PartsFromLines(n);
      MeaningsAreWellFormed(Then, body);
      MeaningsAreWellFormed(Else, otherwise);
  }

  lemma PartsFromLines(n: Node)
    requires n.Conditional? && FromLines(Flatten(n)) && (n.alternative.None? ==> n.otherwise == [])
    ensures FromLines(FlattenAll(n.body)) && FromLines(FlattenAll(n.otherwise))
  {
    var a, b, whole := FlattenAll(n.body), FlattenAll(n.otherwise), Flatten(n);
    forall i | 0 <= i < |a|
      ensures a[i] == whole[1 + i]
    {
    }
    if n.alternative.Some? {
      forall i | 0 <= i < |b|
        ensures b[i] == whole[2 + |a| + i]
      {
      }
    }
  }

  lemma {:induction false} MeaningsAreWellFormed(level: Level, ns: seq<Node>)
    requires LegalAll(level, ns) && FromLines(FlattenAll(ns))
    ensures WellFormedAll(level, MeaningAll(level, ns))
    decreases ns, 0
  {
    if ns != [] {
      var a, b := Flatten(ns[0]), FlattenAll(ns[1..]);
      assert forall i :: 0 <= i < |a| ==> FlattenAll(ns)[i] == a[i];
      assert forall i :: 0 <= i < |b| ==> FlattenAll(ns)[|a| + i] == b[i];
      MeaningIsWellFormed(level, ns[0]);
      MeaningsAreWellFormed(level, ns[1..]);
      assert MeaningAll(level, ns)[1..] == MeaningAll(level, ns[1..]);
    }
  }

  lemma ParsedIsWellFormed(lines: seq<string>)
    requires ScriptLines(lines) && ParseBlock(Tokens(lines), 0, Top).Ok?
    ensures WellFormedAll(Top, ParseBlock(Tokens(lines), 0, Top).value)
  {
    var ts := Tokens(lines);
    var ns := NodesOf(ts, 0, Top);
    assert ts[0..|ts|] == ts;
    MeaningsAreWellFormed(Top, ns);
  }

  // ---- Round trips ----

  /** Parsing the canonical rendering gives the tree back exactly when the tree is well formed. */
  lemma RoundTripIff(cs: seq<Command>)
    ensures WellFormedAll(Top, cs) <==>
            ScriptLines(RenderAll(cs)) && ParseBlock(Tokens(RenderAll(cs)), 0, Top) == Ok(cs, |RenderAll(cs)|)
  {
    if WellFormedAll(Top, cs) {
      var ns := RenderAllIsLegal(Top, cs);
      ParsesExactlyLegalScripts(Tokens(RenderAll(cs)), cs);
    } else if ScriptLines(RenderAll(cs)) && ParseBlock(Tokens(RenderAll(cs)), 0, Top) == Ok(cs, |RenderAll(cs)|) {
      ParsedIsWellFormed(RenderAll(cs));
    }
  }

  /** The same from source text, as long as no rendered line overflows the line scanner. */
  lemma SourceRoundTrip(cs: seq<Command>)
    requires WellFormedAll(Top, cs) && ShortLines(RenderAll(cs))
    ensures ParseText(Join(RenderAll(cs), '\n')) == Ok(cs, |RenderAll(cs)|)
  {
    RoundTripIff(cs);
    LinesOfJoin(RenderAll(cs));
  }

  lemma LinesOfJoin(lines: seq<string>)
    requires ScriptLines(lines) && ShortLines(lines)
    ensures LinesOf(Join(lines, '\n')) == lines
  {
    ScanOfJoin(lines);
    KeepScriptLines(lines);
  }

  /** Reparsing the stored source, which holds only the kept lines, gives the same result. */
  lemma ReparseSource(source: string)
    ensures ParseText(Join(LinesOf(source), '\n')) == ParseText(source)
  {
    LinesOfJoin(LinesOf(source));
  }

  /** A successful parse uses every kept line once, in order, in a legal layout with the parsed meaning. */
  lemma EveryLineConsumed(source: string) returns (ns: seq<Node>)
    requires ParseText(source).Ok?
    ensures LegalAll(Top, ns) && MeaningAll(Top, ns) == ParseText(source).value
    ensures FlattenAll(ns) == Tokens(LinesOf(source)) && ParseText(source).at == |LinesOf(source)|
  {
    var ts := Tokens(LinesOf(source));
    ns := NodesOf(ts, 0, Top);
    assert ts[0..|ts|] == ts;
  }
}
