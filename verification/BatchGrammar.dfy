/**
 The grammar of batch scripts (internal/batch/parser.go) over classified lines: the recursive-descent parser
 as a function, and the proof that it accepts exactly the well-nested scripts and builds exactly their meaning.
 */
module BatchGrammar {
  import opened Common

  datatype Command =
    | Echo(message: string)
    | Cli(name: string, args: seq<string>)
    | Exit(code: int)
    | If(condition: string, thenBlock: seq<Command>, elseBlock: seq<Command>)

  datatype Error = InvalidIf(line: string) | InvalidExit(arg: string) | MissingFi

  datatype Result<+T> = Success(value: T) | Failure(error: Error)

  /** A line by its first word: an `if` with its condition when well formed, or what it means as a plain command. */
  datatype Kind =
    | IfWord(condition: Option<string>)
    | ElseWord(plain: Command)
    | FiWord(plain: Command)
    | OtherWord(parsed: Result<Command>)

  datatype Token = Token(text: string, kind: Kind)

  /** Where a block of commands stands: at the top of the script, after `then`, or after `else`. */
  datatype Level = Top | Then | Else

  /** Whether a line ends a block at this level. Elsewhere `else` and `fi` are ordinary command names. */
  predicate Stops(level: Level, kind: Kind) {
    match level
    case Top => false
    case Then => kind.ElseWord? || kind.FiWord?
    case Else => kind.FiWord?
  }

  /** A parsed value or an error, and the line the cursor stands on. */
  datatype Parsed<+T> = Ok(value: T, at: nat) | Err(error: Error, at: nat)

  function ParseCommand(ts: seq<Token>, i: nat): (r: Parsed<Command>)
    requires i < |ts|
    ensures r.Ok? ==> i <= r.at < |ts|
    decreases |ts| - i, 1
  {
    match ts[i].kind
    case IfWord(_) => ParseConditional(ts, i)
    case ElseWord(c) => Ok(c, i)
    case FiWord(c) => Ok(c, i)
    case OtherWord(Success(c)) => Ok(c, i)
    case OtherWord(Failure(e)) => Err(e, i)
  }

  function ParseConditional(ts: seq<Token>, i: nat): (r: Parsed<Command>)
    requires i < |ts| && ts[i].kind.IfWord?
    ensures r.Ok? ==> i <= r.at < |ts|
    decreases |ts| - i, 0
  {
    match ts[i].kind.condition
    case None => Err(InvalidIf(ts[i].text), i)
    case Some(condition) =>
      match ParseBlock(ts, i + 1, Then)
      case Err(e, at) => Err(e, at)
      case Ok(thenBlock, j) => ParseRest(ts, condition, thenBlock, j)
  }

  /** The optional else-block and the closing `fi`, from the line on which the then-block stopped. */
  function ParseRest(ts: seq<Token>, condition: string, thenBlock: seq<Command>, j: nat): (r: Parsed<Command>)
    requires j <= |ts|
    ensures r.Ok? ==> j <= r.at < |ts|
    decreases |ts| - j, 3
  {
    if j >= |ts| then Err(MissingFi, |ts|)
    else if ts[j].kind.ElseWord? then
      match ParseBlock(ts, j + 1, Else)
      case Err(e, at) => Err(e, at)
      case Ok(elseBlock, k) => if k >= |ts| then Err(MissingFi, |ts|) else Ok(If(condition, thenBlock, elseBlock), k)
    else Ok(If(condition, thenBlock, []), j)
  }

  /** Commands up to the first line, at this nesting level, that stops the block. */
  function ParseBlock(ts: seq<Token>, i: nat, level: Level): (r: Parsed<seq<Command>>)
    requires i <= |ts|
    ensures r.Ok? ==> i <= r.at <= |ts| && (r.at < |ts| ==> Stops(level, ts[r.at].kind))
    decreases |ts| - i, 2
  {
    if i == |ts| || Stops(level, ts[i].kind) then Ok([], i) else
    match ParseCommand(ts, i)
    case Err(e, at) => Err(e, at)
    case Ok(c, j) => Prepend([c], ParseBlock(ts, j + 1, level))
  }

  function Prepend(commands: seq<Command>, rest: Parsed<seq<Command>>): Parsed<seq<Command>> {
    match rest
    case Err(e, at) => Err(e, at)
    case Ok(more, at) => Ok(commands + more, at)
  }

  lemma PrependNothing(rest: Parsed<seq<Command>>)
    ensures Prepend([], rest) == rest
  {
    if rest.Ok? {
      assert [] + rest.value == rest.value;
    }
  }

  /** One turn of a block loop that has gathered `block` so far. */
  lemma BlockStep(ts: seq<Token>, i: nat, level: Level, block: seq<Command>)
    requires i < |ts| && !Stops(level, ts[i].kind)
    ensures Prepend(block, ParseBlock(ts, i, level)) ==
            match ParseCommand(ts, i)
            case Err(e, at) => Err(e, at)
            case Ok(c, j) => Prepend(block + [c], ParseBlock(ts, j + 1, level))
  {
    match ParseCommand(ts, i)
    case Err(_, _) =>
    case Ok(c, j) =>
      var rest := ParseBlock(ts, j + 1, level);
      if rest.Ok? {
        assert block + ([c] + rest.value) == block + [c] + rest.value;
      }
  }

  lemma BlockEnd(ts: seq<Token>, i: nat, level: Level, block: seq<Command>)
    requires i <= |ts| && (i == |ts| || Stops(level, ts[i].kind))
    ensures Prepend(block, ParseBlock(ts, i, level)) == Ok(block, i)
  {
    assert block + [] == block;
  }

  // ---- The grammar, independently of the parser ----

  /** A script as it is nested on the page: single lines, and conditionals with every line they own. */
  datatype Node =
    | Line(token: Token)
    | Conditional(head: Token, body: seq<Node>, alternative: Option<Token>, otherwise: seq<Node>, tail: Token)

  function Flatten(n: Node): (ts: seq<Token>)
    ensures ts != []
    decreases n, 1
  {
    match n
    case Line(t) => [t]
    case Conditional(head, body, alternative, otherwise, tail) =>
      [head] + FlattenAll(body) + (if alternative.Some? then [alternative.value] + FlattenAll(otherwise) else []) + [tail]
  }

  function FlattenAll(ns: seq<Node>): seq<Token>
    decreases ns, 0
  {
    if ns == [] then [] else Flatten(ns[0]) + FlattenAll(ns[1..])
  }

  predicate Legal(level: Level, n: Node)
    decreases n, 1
  {
    match n
    case Line(t) => !t.kind.IfWord? && !Stops(level, t.kind) && (t.kind.OtherWord? ==> t.kind.parsed.Success?)
    case Conditional(head, body, alternative, otherwise, tail) =>
      && head.kind.IfWord? && head.kind.condition.Some?
      && LegalAll(Then, body)
      && (alternative.Some? ==> alternative.value.kind.ElseWord?)
      && (alternative.None? ==> otherwise == [])
      && LegalAll(Else, otherwise)
      && tail.kind.FiWord?
  }

  predicate LegalAll(level: Level, ns: seq<Node>)
    decreases ns, 0
  {
    ns != [] ==> Legal(level, ns[0]) && LegalAll(level, ns[1..])
  }

  function LineCommand(kind: Kind): Command
    requires kind.OtherWord? ==> kind.parsed.Success?
    requires !kind.IfWord?
  {
    match kind
    case ElseWord(c) => c
    case FiWord(c) => c
    case OtherWord(r) => r.value
  }

  function Meaning(level: Level, n: Node): Command
    requires Legal(level, n)
    decreases n, 1
  {
    match n
    case Line(t) => LineCommand(t.kind)
    case Conditional(head, body, _, otherwise, _) =>
      If(head.kind.condition.value, MeaningAll(Then, body), MeaningAll(Else, otherwise))
  }

  function MeaningAll(level: Level, ns: seq<Node>): seq<Command>
    requires LegalAll(level, ns)
    decreases ns, 0
  {
    if ns == [] then [] else [Meaning(level, ns[0])] + MeaningAll(level, ns[1..])
  }

  /** `part` is what `ts` holds from position `i` on. */
  ghost predicate At(ts: seq<Token>, i: nat, part: seq<Token>) {
    i + |part| <= |ts| && ts[i..i + |part|] == part
  }

  lemma AtSplit(ts: seq<Token>, i: nat, a: seq<Token>, b: seq<Token>)
    requires At(ts, i, a + b)
    ensures At(ts, i, a) && At(ts, i + |a|, b)
  {
    assert ts[i..i + |a|] == (a + b)[..|a|] == a;
    assert ts[i + |a|..i + |a| + |b|] == (a + b)[|a|..] == b;
  }

  lemma AtOne(ts: seq<Token>, i: nat, t: Token)
    requires At(ts, i, [t])
    ensures i < |ts| && ts[i] == t
  {
    assert ts[i..i + 1] == [ts[i]];
  }

  lemma AtConditional(ts: seq<Token>, i: nat, head: Token, first: seq<Token>, middle: seq<Token>, tail: Token)
    requires At(ts, i, [head] + first + middle + [tail])
    ensures i < |ts| && ts[i] == head && At(ts, i + 1, first) && At(ts, i + 1 + |first|, middle)
    ensures var k := i + 1 + |first| + |middle|; k < |ts| && ts[k] == tail
  {
    AtSplit(ts, i, [head] + first + middle, [tail]);
    AtSplit(ts, i, [head] + first, middle);
    AtSplit(ts, i, [head], first);
    AtOne(ts, i, head);
    AtOne(ts, i + 1 + |first| + |middle|, tail);
  }

  // ---- Every legal layout is accepted with its meaning ----

  lemma IfElseParses(ts: seq<Token>, i: nat, j: nat, k: nat, condition: string, thenBlock: seq<Command>, elseBlock: seq<Command>)
    requires i < j < k < |ts| && ts[i].kind == IfWord(Some(condition)) && ts[j].kind.ElseWord?
    requires ParseBlock(ts, i + 1, Then) == Ok(thenBlock, j) && ParseBlock(ts, j + 1, Else) == Ok(elseBlock, k)
    ensures ParseCommand(ts, i) == Ok(If(condition, thenBlock, elseBlock), k)
  {
    assert ParseRest(ts, condition, thenBlock, j) == Ok(If(condition, thenBlock, elseBlock), k);
  }

  lemma IfParses(ts: seq<Token>, i: nat, j: nat, condition: string, thenBlock: seq<Command>)
    requires i < j < |ts| && ts[i].kind == IfWord(Some(condition)) && ts[j].kind.FiWord?
    requires ParseBlock(ts, i + 1, Then) == Ok(thenBlock, j)
    ensures ParseCommand(ts, i) == Ok(If(condition, thenBlock, []), j)
  {
    assert ParseRest(ts, condition, thenBlock, j) == Ok(If(condition, thenBlock, []), j);
  }

  /** Where the parts of a conditional that starts at line `i` stand. */
  ghost predicate Placed(ts: seq<Token>, i: nat, n: Node, j: nat, k: nat)
    requires n.Conditional?
  {
    && i < j <= k < |ts| && ts[i] == n.head && ts[k] == n.tail
    && At(ts, i + 1, FlattenAll(n.body)) && j == i + 1 + |FlattenAll(n.body)|
    && match n.alternative
       case None => k == j
       case Some(t) => ts[j] == t && At(ts, j + 1, FlattenAll(n.otherwise)) && k == j + 1 + |FlattenAll(n.otherwise)|
  }

  lemma PlaceConditional(ts: seq<Token>, i: nat, n: Node) returns (j: nat, k: nat)
    requires n.Conditional? && At(ts, i, Flatten(n))
    ensures Placed(ts, i, n, j, k) && k == i + |Flatten(n)| - 1
  {
    var first := FlattenAll(n.body);
    j := i + 1 + |first|;
    match n.alternative
    case None =>
      AtConditional(ts, i, n.head, first, [], n.tail);
      k := j;
    case Some(t) =>
      var second := FlattenAll(n.otherwise);
      AtConditional(ts, i, n.head, first, [t] + second, n.tail);
      AtSplit(ts, j, [t], second);
      AtOne(ts, j, t);
      k := j + 1 + |second|;
  }

  lemma {:induction false} ParsesNode(ts: seq<Token>, i: nat, level: Level, n: Node)
    requires Legal(level, n) && At(ts, i, Flatten(n))
    ensures ParseCommand(ts, i) == Ok(Meaning(level, n), i + |Flatten(n)| - 1)
    ensures !Stops(level, ts[i].kind)
    decreases n, 1
  {
    if n.Line? {
      AtOne(ts, i, n.token);
    } else {
      var j, k := PlaceConditional(ts, i, n);
      ParsesConditional(ts, i, n, j, k);
    }
  }

  lemma {:induction false} ParsesConditional(ts: seq<Token>, i: nat, n: Node, j: nat, k: nat)
    requires n.Conditional? && Legal(Top, n) && Placed(ts, i, n, j, k)
    ensures ParseCommand(ts, i) == Ok(Meaning(Top, n), k)
    decreases n, 0
  {
    var condition := n.head.kind.condition.value;
    ParsesNodes(ts, i + 1, Then, n.body);
    if n.alternative.Some? {
      ParsesNodes(ts, j + 1, Else, n.otherwise);
      IfElseParses(ts, i, j, k, condition, MeaningAll(Then, n.body), MeaningAll(Else, n.otherwise));
    } else {
      IfParses(ts, i, j, condition, MeaningAll(Then, n.body));
    }
  }

  lemma BlockContinues(ts: seq<Token>, i: nat, level: Level, c: Command, j: nat, rest: seq<Command>)
    requires i < j <= |ts| && !Stops(level, ts[i].kind)
    requires ParseCommand(ts, i) == Ok(c, j - 1) && ParseBlock(ts, j, level).Ok? && ParseBlock(ts, j, level).value == rest
    ensures ParseBlock(ts, i, level) == Ok([c] + rest, ParseBlock(ts, j, level).at)
  {
  }

  lemma AtFirst(ts: seq<Token>, i: nat, ns: seq<Node>) returns (j: nat)
    requires ns != [] && At(ts, i, FlattenAll(ns))
    ensures At(ts, i, Flatten(ns[0])) && j == i + |Flatten(ns[0])|
    ensures At(ts, j, FlattenAll(ns[1..])) && j + |FlattenAll(ns[1..])| == i + |FlattenAll(ns)|
  {
    var first, rest := Flatten(ns[0]), FlattenAll(ns[1..]);
    AtSplit(ts, i, first, rest);
    j := i + |first|;
  }

  lemma {:induction false} ParsesNodes(ts: seq<Token>, i: nat, level: Level, ns: seq<Node>)
    requires LegalAll(level, ns) && At(ts, i, FlattenAll(ns))
    requires var j := i + |FlattenAll(ns)|; j < |ts| ==> Stops(level, ts[j].kind)
    ensures ParseBlock(ts, i, level) == Ok(MeaningAll(level, ns), i + |FlattenAll(ns)|)
    decreases ns, 0
  {
    if ns != [] {
      var j := AtFirst(ts, i, ns);
      ParsesNode(ts, i, level, ns[0]);
      ParsesNodes(ts, j, level, ns[1..]);
      BlockContinues(ts, i, level, Meaning(level, ns[0]), j, MeaningAll(level, ns[1..]));
    }
  }

  // ---- Whatever is accepted has a legal layout ----

  lemma {:induction false} NodeOf(ts: seq<Token>, i: nat, level: Level) returns (n: Node)
    requires i < |ts| && !Stops(level, ts[i].kind) && ParseCommand(ts, i).Ok?
    ensures Legal(level, n) && Meaning(level, n) == ParseCommand(ts, i).value
    ensures Flatten(n) == ts[i..ParseCommand(ts, i).at + 1]
    decreases |ts| - i, 1
  {
    if ts[i].kind.IfWord? {
      var j, k := ParsedConditional(ts, i);
      n := ConditionalOf(ts, i, j, k);
    } else {
      n := Line(ts[i]);
    }
  }

  /** What a successfully parsed conditional finds on its lines. */
  ghost predicate Found(ts: seq<Token>, i: nat, j: nat, k: nat) {
    && i < j <= k < |ts| && ts[i].kind.IfWord? && ts[i].kind.condition.Some? && ts[k].kind.FiWord?
    && ParseBlock(ts, i + 1, Then).Ok? && ParseBlock(ts, i + 1, Then).at == j
    && (j < k ==> ts[j].kind.ElseWord? && ParseBlock(ts, j + 1, Else).Ok? && ParseBlock(ts, j + 1, Else).at == k)
  }

  ghost function FoundCommand(ts: seq<Token>, i: nat, j: nat, k: nat): Command
    requires Found(ts, i, j, k)
  {
    If(ts[i].kind.condition.value, ParseBlock(ts, i + 1, Then).value,
       if j < k then ParseBlock(ts, j + 1, Else).value else [])
  }

  lemma ParsedConditional(ts: seq<Token>, i: nat) returns (j: nat, k: nat)
    requires i < |ts| && ts[i].kind.IfWord? && ParseConditional(ts, i).Ok?
    ensures Found(ts, i, j, k) && ParseConditional(ts, i) == Ok(FoundCommand(ts, i, j, k), k)
  {
    j, k := ParseBlock(ts, i + 1, Then).at, ParseConditional(ts, i).at;
  }

  lemma {:induction false} ConditionalOf(ts: seq<Token>, i: nat, j: nat, k: nat) returns (n: Node)
    requires Found(ts, i, j, k)
    ensures n.Conditional? && Legal(Top, n) && Meaning(Top, n) == FoundCommand(ts, i, j, k)
    ensures Flatten(n) == ts[i..k + 1]
    decreases |ts| - i, 0
  {
    var body := NodesOf(ts, i + 1, Then);
    if j < k {
      var otherwise := NodesOf(ts, j + 1, Else);
      n := IfElseNode(ts, i, j, k, body, otherwise);
    } else {
      n := IfNode(ts, i, k, body);
    }
  }

  lemma IfElseNode(ts: seq<Token>, i: nat, j: nat, k: nat, body: seq<Node>, otherwise: seq<Node>) returns (n: Node)
    requires i < j < k < |ts| && ts[i].kind.IfWord? && ts[i].kind.condition.Some?
    requires ts[j].kind.ElseWord? && ts[k].kind.FiWord?
    requires LegalAll(Then, body) && FlattenAll(body) == ts[i + 1..j]
    requires LegalAll(Else, otherwise) && FlattenAll(otherwise) == ts[j + 1..k]
    ensures n.Conditional? && Legal(Top, n) && Flatten(n) == ts[i..k + 1]
    ensures Meaning(Top, n) == If(ts[i].kind.condition.value, MeaningAll(Then, body), MeaningAll(Else, otherwise))
  {
    n := Conditional(ts[i], body, Some(ts[j]), otherwise, ts[k]);
    CutInFive(ts, i, j, k);
  }

  lemma IfNode(ts: seq<Token>, i: nat, k: nat, body: seq<Node>) returns (n: Node)
    requires i < k < |ts| && ts[i].kind.IfWord? && ts[i].kind.condition.Some? && ts[k].kind.FiWord?
    requires LegalAll(Then, body) && FlattenAll(body) == ts[i + 1..k]
    ensures n.Conditional? && Legal(Top, n) && Flatten(n) == ts[i..k + 1]
    ensures Meaning(Top, n) == If(ts[i].kind.condition.value, MeaningAll(Then, body), [])
  {
    n := Conditional(ts[i], body, None, [], ts[k]);
    CutInThree(ts, i, k);
  }

  lemma CutInThree(ts: seq<Token>, i: nat, k: nat)
    requires i < k < |ts|
    ensures ts[i..k + 1] == [ts[i]] + ts[i + 1..k] + [] + [ts[k]]
  {
  }

  lemma CutInFive(ts: seq<Token>, i: nat, j: nat, k: nat)
    requires i < j < k < |ts|
    ensures ts[i..k + 1] == [ts[i]] + ts[i + 1..j] + ([ts[j]] + ts[j + 1..k]) + [ts[k]]
  {
  }

  lemma {:induction false} NodesOf(ts: seq<Token>, i: nat, level: Level) returns (ns: seq<Node>)
    requires i <= |ts| && ParseBlock(ts, i, level).Ok?
    ensures LegalAll(level, ns) && MeaningAll(level, ns) == ParseBlock(ts, i, level).value
    ensures FlattenAll(ns) == ts[i..ParseBlock(ts, i, level).at]
    decreases |ts| - i, 2
  {
    if i == |ts| || Stops(level, ts[i].kind) {
      ns := [];
    } else {
      var j := ParseCommand(ts, i).at + 1;
      var n := NodeOf(ts, i, level);
      var more := NodesOf(ts, j, level);
      ns := NodesInFront(ts, i, j, ParseBlock(ts, j, level).at, level, n, more);
    }
  }

  lemma NodesInFront(ts: seq<Token>, i: nat, j: nat, k: nat, level: Level, n: Node, more: seq<Node>) returns (ns: seq<Node>)
    requires i <= j <= k <= |ts| && Flatten(n) == ts[i..j] && FlattenAll(more) == ts[j..k]
    requires Legal(level, n) && LegalAll(level, more)
    ensures LegalAll(level, ns) && MeaningAll(level, ns) == [Meaning(level, n)] + MeaningAll(level, more)
    ensures FlattenAll(ns) == ts[i..k]
  {
    ns := [n] + more;
    assert ns[0] == n && ns[1..] == more;
    CutInTwo(ts, i, j, k);
  }

  lemma CutInTwo(ts: seq<Token>, i: nat, j: nat, k: nat)
    requires i <= j <= k <= |ts|
    ensures ts[i..k] == ts[i..j] + ts[j..k]
  {
  }

  /**
   The parser returns `commands` for a script exactly when the script's lines, each used once and in order,
   can be laid out legally with that meaning.
   */
  lemma ParsesExactlyLegalScripts(ts: seq<Token>, commands: seq<Command>)
    ensures ParseBlock(ts, 0, Top) == Ok(commands, |ts|) <==>
            exists ns :: LegalAll(Top, ns) && FlattenAll(ns) == ts && MeaningAll(Top, ns) == commands
    ensures ParseBlock(ts, 0, Top).Ok? ==> ParseBlock(ts, 0, Top).at == |ts|
  {
    if ParseBlock(ts, 0, Top).Ok? {
      var ns := NodesOf(ts, 0, Top);
      assert ts[0..|ts|] == ts;
    }
    forall ns | LegalAll(Top, ns) && FlattenAll(ns) == ts && MeaningAll(Top, ns) == commands
      ensures ParseBlock(ts, 0, Top) == Ok(commands, |ts|)
    {
      assert ts[0..|ts|] == ts;
      ParsesNodes(ts, 0, Top, ns);
    }
  }
}
