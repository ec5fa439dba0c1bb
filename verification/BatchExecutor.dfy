/**
 Running batch scripts (internal/batch/executor.go and the `Execute` methods of internal/batch/types.go):
 the executor as it runs, and the proof that conditions can be resolved before the run.
 */
module BatchExecutor {
  import opened Common
  import opened BatchGrammar
  import BatchText

  // ---- The outside world, as oracles ----

  datatype Call = Call(name: string, args: seq<string>)

  datatype Status = ExitZero | ExitCode(code: int) | CouldNotRun

  datatype Outcome = Outcome(stdout: string, stderr: string, status: Status)

  /** A parsed floating-point literal; comparison follows IEEE 754. */
  datatype Number = Finite(value: real) | PlusInfinity | MinusInfinity | NotANumber

  datatype World = World(
    /** What a CLI call does, given all calls made before it. */
    cli: (seq<Call>, Call) -> Outcome,
    parseFloat: string -> Option<Number>,
    /** Whether the context is done when the script reaches a step. */
    cancelled: nat -> bool,
    variables: map<string, string>,
    allowed: set<string>)

  // ---- Conditions ----

  datatype Fault =
    | ExitRequest(code: int)
    | NotAllowed(name: string)
    | CliFailed(call: Call, status: Status)
    | InvalidCondition(condition: string)
    | UnknownOperator(operator: string)
    | NotNumeric(value: string)

  datatype Verdict = Truth(holds: bool) | Broken(fault: Fault)

  function ResolveValue(w: World, lastExit: int, value: string): string {
    if value == "last_exit" || value == "last_exit_code" then BatchText.Itoa(lastExit)
    else if value in w.variables then w.variables[value]
    else value
  }

  predicate Less(a: Number, b: Number) {
    match (a, b)
    case (NotANumber, _) => false
    case (_, NotANumber) => false
    case (Finite(x), Finite(y)) => x < y
    case (MinusInfinity, _) => b != MinusInfinity
    case (_, PlusInfinity) => a != PlusInfinity
    case _ => false
  }

  predicate AtMost(a: Number, b: Number) {
    Less(a, b) || (a == b && a != NotANumber)
  }

  function CompareNumeric(w: World, left: string, right: string, operator: string): Verdict {
    match w.parseFloat(left)
    case None => Broken(NotNumeric(left))
    case Some(l) =>
      match w.parseFloat(right)
      case None => Broken(NotNumeric(right))
      case Some(r) =>
        if operator == ">" then Truth(Less(r, l))
        else if operator == "<" then Truth(Less(l, r))
        else if operator == ">=" then Truth(AtMost(r, l))
        else if operator == "<=" then Truth(AtMost(l, r))
        else Broken(UnknownOperator(operator))
  }

  function EvaluateCondition(w: World, lastExit: int, text: string): Verdict {
    var condition := BatchText.TrimSpace(text);
    var parts := BatchText.Fields(condition);
    if |parts| < 3 then Broken(InvalidCondition(condition)) else
    var left, right := ResolveValue(w, lastExit, parts[0]), ResolveValue(w, lastExit, parts[2]);
    if parts[1] == "==" then Truth(left == right)
    else if parts[1] == "!=" then Truth(left != right)
    else if parts[1] in {">", "<", ">=", "<="} then CompareNumeric(w, left, right, parts[1])
    else Broken(UnknownOperator(parts[1]))
  }

  // ---- What conditions mean ----

  /** What a word of a condition stands for: the last exit code, a variable's value, or itself. */
  ghost predicate StandsFor(w: World, lastExit: int, word: string, value: string) {
    if word in {"last_exit", "last_exit_code"} then value == BatchText.Itoa(lastExit)
    else (word in w.variables && value == w.variables[word]) || (word !in w.variables && value == word)
  }

  lemma ResolvesToItsValue(w: World, lastExit: int, word: string)
    ensures StandsFor(w, lastExit, word, ResolveValue(w, lastExit, word))
    ensures forall value :: StandsFor(w, lastExit, word, value) ==> value == ResolveValue(w, lastExit, word)
  {
  }

  /** A condition with at least three words, the first and third standing for `x` and `y`. */
  ghost predicate Compares(w: World, lastExit: int, text: string, operator: string, x: string, y: string) {
    exists l, r, more ::
      BatchText.Spread(text, [l, operator, r] + more) && StandsFor(w, lastExit, l, x) && StandsFor(w, lastExit, r, y)
  }

  lemma PartsOf(w: World, lastExit: int, text: string, operator: string, x: string, y: string)
    requires Compares(w, lastExit, text, operator, x, y)
    ensures var parts := BatchText.Fields(BatchText.TrimSpace(text));
            && |parts| >= 3 && parts[1] == operator
            && ResolveValue(w, lastExit, parts[0]) == x && ResolveValue(w, lastExit, parts[2]) == y
  {
    var l, r, more :|
      BatchText.Spread(text, [l, operator, r] + more) && StandsFor(w, lastExit, l, x) && StandsFor(w, lastExit, r, y);
    BatchText.FieldsOfTrimSpace(text);
    BatchText.FieldsIff(text, [l, operator, r] + more);
    ResolvesToItsValue(w, lastExit, l);
    ResolvesToItsValue(w, lastExit, r);
  }

  /** `==` and `!=` compare the values as texts. */
  lemma EqualityMeans(w: World, lastExit: int, text: string, x: string, y: string)
    ensures Compares(w, lastExit, text, "==", x, y) ==> EvaluateCondition(w, lastExit, text) == Truth(x == y)
    ensures Compares(w, lastExit, text, "!=", x, y) ==> EvaluateCondition(w, lastExit, text) == Truth(x != y)
  {
    if Compares(w, lastExit, text, "==", x, y) {
      PartsOf(w, lastExit, text, "==", x, y);
    }
    if Compares(w, lastExit, text, "!=", x, y) {
      PartsOf(w, lastExit, text, "!=", x, y);
    }
  }

  /** The four orders compare the values as numbers. */
  lemma OrderMeans(w: World, lastExit: int, text: string, x: string, y: string, a: real, b: real)
    requires w.parseFloat(x) == Some(Finite(a)) && w.parseFloat(y) == Some(Finite(b))
    ensures Compares(w, lastExit, text, "<", x, y) ==> EvaluateCondition(w, lastExit, text) == Truth(a < b)
    ensures Compares(w, lastExit, text, "<=", x, y) ==> EvaluateCondition(w, lastExit, text) == Truth(a <= b)
    ensures Compares(w, lastExit, text, ">", x, y) ==> EvaluateCondition(w, lastExit, text) == Truth(a > b)
    ensures Compares(w, lastExit, text, ">=", x, y) ==> EvaluateCondition(w, lastExit, text) == Truth(a >= b)
  {
    forall operator | operator in {"<", "<=", ">", ">="} && Compares(w, lastExit, text, operator, x, y)
      ensures EvaluateCondition(w, lastExit, text) == CompareNumeric(w, x, y, operator)
    {
      PartsOf(w, lastExit, text, operator, x, y);
    }
  }

  /** Infinities bound the finite numbers, and nothing compares with what is not a number. */
  lemma SpecialOrderMeans(w: World, lastExit: int, text: string, operator: string, x: string, y: string, a: Number, b: Number)
    requires w.parseFloat(x) == Some(a) && w.parseFloat(y) == Some(b)
    requires operator in {"<", "<=", ">", ">="} && Compares(w, lastExit, text, operator, x, y)
    ensures a.NotANumber? || b.NotANumber? ==> EvaluateCondition(w, lastExit, text) == Truth(false)
    ensures a == b && !a.NotANumber? ==> EvaluateCondition(w, lastExit, text) == Truth(operator in {"<=", ">="})
    ensures (a.MinusInfinity? && (b.Finite? || b.PlusInfinity?)) || (a.Finite? && b.PlusInfinity?) ==>
              EvaluateCondition(w, lastExit, text) == Truth(operator in {"<", "<="})
    ensures (b.MinusInfinity? && (a.Finite? || a.PlusInfinity?)) || (b.Finite? && a.PlusInfinity?) ==>
              EvaluateCondition(w, lastExit, text) == Truth(operator in {">", ">="})
  {
    PartsOf(w, lastExit, text, operator, x, y);
  }

  /** The faults: too few words, an operator that is none of the six, and an order on values that are no numbers. */
  lemma FaultyConditions(w: World, lastExit: int, text: string, words: seq<string>, operator: string, x: string, y: string)
    ensures BatchText.Spread(text, words) && |words| < 3 ==>
              EvaluateCondition(w, lastExit, text) == Broken(InvalidCondition(BatchText.TrimSpace(text)))
    ensures operator !in {"==", "!=", "<", "<=", ">", ">="} && Compares(w, lastExit, text, operator, x, y) ==>
              EvaluateCondition(w, lastExit, text) == Broken(UnknownOperator(operator))
    ensures operator in {"<", "<=", ">", ">="} && Compares(w, lastExit, text, operator, x, y) && w.parseFloat(x) == None ==>
              EvaluateCondition(w, lastExit, text) == Broken(NotNumeric(x))
    ensures operator in {"<", "<=", ">", ">="} && Compares(w, lastExit, text, operator, x, y) && w.parseFloat(x).Some? && w.parseFloat(y) == None ==>
              EvaluateCondition(w, lastExit, text) == Broken(NotNumeric(y))
  {
    BatchText.FieldsOfTrimSpace(text);
    BatchText.FieldsIff(text, words);
    if Compares(w, lastExit, text, operator, x, y) {
      PartsOf(w, lastExit, text, operator, x, y);
    }
  }

  // ---- What running a script does ----

  datatype Item = Step(step: nat, total: nat, text: string) | Message(text: string) | CliOutput(text: string)

  datatype State = State(output: seq<Item>, lastExit: int, calls: seq<Call>)

  const FRESH := State([], 0, [])

  /** The state after a command, and the fault that stopped it, if any. */
  datatype Run = Run(state: State, fault: Option<Fault>)

  function CliItems(o: Outcome): seq<Item> {
    (if o.stdout != "" then [CliOutput(o.stdout)] else []) + (if o.stderr != "" then [CliOutput(o.stderr)] else [])
  }

  function RunCli(w: World, name: string, args: seq<string>, s: State): Run {
    if name !in w.allowed then Run(s, Some(NotAllowed(name))) else
    var call := Call(name, args);
    var o := w.cli(s.calls, call);
    var lastExit := match o.status case ExitZero => 0 case ExitCode(code) => code case CouldNotRun => 1;
    Run(State(s.output + CliItems(o), lastExit, s.calls + [call]),
        if o.status.ExitZero? then None else Some(CliFailed(call, o.status)))
  }

  function RunCommand(w: World, c: Command, s: State): Run
    decreases c, 1
  {
    match c
    case Echo(message) => Run(s.(output := s.output + [Message(message)]), None)
    case Cli(name, args) => RunCli(w, name, args, s)
    case Exit(code) => Run(s, Some(ExitRequest(code)))
    case If(condition, thenBlock, elseBlock) =>
      match EvaluateCondition(w, s.lastExit, condition)
      case Broken(fault) => Run(s, Some(fault))
      case Truth(holds) => RunBlock(w, if holds then thenBlock else elseBlock, s)
  }

  function RunBlock(w: World, cs: seq<Command>, s: State): Run
    decreases cs, 0
  {
    if cs == [] then Run(s, None) else
    var r := RunCommand(w, cs[0], s);
    if r.fault.Some? then r else RunBlock(w, cs[1..], r.state)
  }

  function CommandText(c: Command): string {
    match c
    case Echo(message) => "echo " + message
    case Cli(name, args) => name + " " + BatchText.Join(args, ' ')
    case Exit(_) => "exit"
    case If(condition, _, _) => "if " + condition + " then ... fi"
  }

  datatype Result = Completed | ExitedWith(code: int) | FailedAt(step: nat, fault: Fault) | Cancelled

  datatype Ending = Ending(state: State, result: Result)

  /** How a fault in top-level step `step` ends the script. */
  function EndWith(s: State, step: nat, fault: Fault): Ending {
    match fault
    case ExitRequest(code) => Ending(s.(lastExit := code), if code != 0 then ExitedWith(code) else Completed)
    case _ => Ending(s, FailedAt(step, fault))
  }

  function Announce(s: State, step: nat, total: nat, c: Command): State {
    s.(output := s.output + [Step(step, total, CommandText(c))])
  }

  /** The script from its command number `i` (counting from zero) on. */
  function RunScript(w: World, cs: seq<Command>, i: nat, s: State): Ending
    requires i <= |cs|
    decreases |cs| - i
  {
    if i == |cs| then Ending(s, Completed)
    else if w.cancelled(i) then Ending(s, Cancelled)
    else
      var r := RunCommand(w, cs[i], Announce(s, i + 1, |cs|, cs[i]));
      if r.fault.Some? then EndWith(r.state, i + 1, r.fault.value) else RunScript(w, cs, i + 1, r.state)
  }

  /** What CLI calls have written, one after the other. */
  function Texts(items: seq<Item>): string {
    if items == [] then "" else
    Texts(items[..|items| - 1]) + if items[|items| - 1].CliOutput? then items[|items| - 1].text else ""
  }

  lemma {:induction false} TextsOfMore(a: seq<Item>, b: seq<Item>)
    ensures Texts(a + b) == Texts(a) + Texts(b)
    decreases b
  {
    if b == [] {
      assert a + b == a;
    } else {
      assert (a + b)[..|a + b| - 1] == a + b[..|b| - 1];
      TextsOfMore(a, b[..|b| - 1]);
    }
  }

  lemma TextsOfOutcome(items: seq<Item>, o: Outcome)
    ensures Texts(items + CliItems(o)) == Texts(items) + o.stdout + o.stderr
  {
    var first := if o.stdout != "" then [CliOutput(o.stdout)] else [];
    var second := if o.stderr != "" then [CliOutput(o.stderr)] else [];
    TextsOfMore(items, first + second);
    TextsOfMore(first, second);
    TextOfOne(o.stdout);
    TextOfOne(o.stderr);
  }

  lemma TextOfOne(text: string)
    ensures Texts(if text != "" then [CliOutput(text)] else []) == text
  {
    assert [CliOutput(text)][..0] == [];
  }

  // ---- The executor as it runs ----

  class Executor {
    const world: World
    var output: seq<Item>
    var lastExitCode: int
    /** The CLI calls made so far; the world answers the next call in their light. */
    var calls: seq<Call>

    constructor (world: World)
      ensures this.world == world && Now() == FRESH
    {
      this.world := world;
      output, lastExitCode, calls := [], 0, [];
    }

    ghost function Now(): State
      reads this
    {
      State(output, lastExitCode, calls)
    }

    method Execute(commands: seq<Command>) returns (result: Result)
      modifies this
      ensures Ending(Now(), result) == RunScript(world, commands, 0, old(Now()))
    {
      for i := 0 to |commands|
        invariant RunScript(world, commands, 0, old(Now())) == RunScript(world, commands, i, Now())
      {
        if world.cancelled(i) {
          return Cancelled;
        }
        output := output + [Step(i + 1, |commands|, CommandText(commands[i]))];
        var fault := ExecuteCommand(commands[i]);
        if fault.Some? {
          if fault.value.ExitRequest? {
            lastExitCode := fault.value.code;
            if fault.value.code != 0 {
              return ExitedWith(fault.value.code);
            }
            return Completed;
          }
          return FailedAt(i + 1, fault.value);
        }
      }
      result := Completed;
    }

    method ExecuteCommand(c: Command) returns (fault: Option<Fault>)
      modifies this
      ensures Run(Now(), fault) == RunCommand(world, c, old(Now()))
      decreases c, 1
    {
      match c
      case Echo(message) =>
        output := output + [Message(message)];
        fault := None;
      case Cli(name, args) =>
        fault := ExecuteCli(name, args);
      case Exit(code) =>
        fault := Some(ExitRequest(code));
      case If(condition, thenBlock, elseBlock) =>
        match EvaluateCondition(world, lastExitCode, condition) {
          case Broken(f) => fault := Some(f);
          case Truth(holds) => fault := ExecuteBlock(if holds then thenBlock else elseBlock);
        }
    }

    method ExecuteBlock(cs: seq<Command>) returns (fault: Option<Fault>)
      modifies this
      ensures Run(Now(), fault) == RunBlock(world, cs, old(Now()))
      decreases cs, 0
    {
      for i := 0 to |cs|
        invariant RunBlock(world, cs, old(Now())) == RunBlock(world, cs[i..], Now())
      {
        fault := ExecuteCommand(cs[i]);
        if fault.Some? {
          return;
        }
        assert cs[i..][1..] == cs[i + 1..];
      }
      fault := None;
    }

    method ExecuteCli(name: string, args: seq<string>) returns (fault: Option<Fault>)
      modifies this
      ensures Run(Now(), fault) == RunCli(world, name, args, old(Now()))
      ensures fault == Some(NotAllowed(name)) <==> name !in world.allowed
      ensures name !in world.allowed ==> Now() == old(Now())
      ensures name in world.allowed ==>
                var outcome := world.cli(old(calls), Call(name, args));
                && calls == old(calls) + [Call(name, args)]
                && (fault == None <==> outcome.status == ExitZero)
                && (outcome.status == ExitZero ==> lastExitCode == 0)
                && (outcome.status.ExitCode? ==> lastExitCode == outcome.status.code)
                && (outcome.status == CouldNotRun ==> lastExitCode == 1)
                && Texts(output) == Texts(old(output)) + outcome.stdout + outcome.stderr
    {
      if name !in world.allowed {
        return Some(NotAllowed(name));
      }
      var call := Call(name, args);
      var outcome := world.cli(calls, call);
      calls := calls + [call];
      if outcome.stdout != "" {
        output := output + [CliOutput(outcome.stdout)];
      }
      if outcome.stderr != "" {
        output := output + [CliOutput(outcome.stderr)];
      }
      assert output == old(output) + CliItems(outcome);
      TextsOfOutcome(old(output), outcome);
      match outcome.status
      case ExitZero =>
        lastExitCode := 0;
        fault := None;
      case ExitCode(code) =>
        lastExitCode := code;
        fault := Some(CliFailed(call, outcome.status));
      case CouldNotRun =>
        lastExitCode := 1;
        fault := Some(CliFailed(call, outcome.status));
    }
  }

  // ---- Fail-stop ----

  /** Nothing runs after the first failure or `exit`, at any depth. */
  lemma {:induction false} NothingAfterFault(w: World, a: seq<Command>, b: seq<Command>, s: State)
    requires RunBlock(w, a, s).fault.Some?
    ensures RunBlock(w, a + b, s) == RunBlock(w, a, s)
    decreases a
  {
    assert (a + b)[0] == a[0] && (a + b)[1..] == a[1..] + b;
    var r := RunCommand(w, a[0], s);
    if r.fault.None? {
      NothingAfterFault(w, a[1..], b, r.state);
    }
  }

  /** As long as commands succeed, the exit code that conditions see stays zero. */
  lemma {:induction false} SuccessKeepsZero(w: World, c: Command, s: State)
    requires s.lastExit == 0
    ensures RunCommand(w, c, s).fault.None? ==> RunCommand(w, c, s).state.lastExit == 0
    decreases c, 1
  {
    if c.If? {
      SuccessKeepsZeroInBlock(w, c.thenBlock, s);
      SuccessKeepsZeroInBlock(w, c.elseBlock, s);
    }
  }

  lemma {:induction false} SuccessKeepsZeroInBlock(w: World, cs: seq<Command>, s: State)
    requires s.lastExit == 0
    ensures RunBlock(w, cs, s).fault.None? ==> RunBlock(w, cs, s).state.lastExit == 0
    decreases cs, 0
  {
    if cs != [] {
      SuccessKeepsZero(w, cs[0], s);
      var r := RunCommand(w, cs[0], s);
      if r.fault.None? {
        SuccessKeepsZeroInBlock(w, cs[1..], r.state);
      }
    }
  }

  // ---- A script is its block with announcements ----

  /** The output without the announcements of steps. */
  function Unannounced(items: seq<Item>): seq<Item> {
    if items == [] then [] else
    Unannounced(items[..|items| - 1]) + if items[|items| - 1].Step? then [] else [items[|items| - 1]]
  }

  lemma {:induction false} UnannouncedMore(a: seq<Item>, b: seq<Item>)
    ensures Unannounced(a + b) == Unannounced(a) + Unannounced(b)
    decreases b
  {
    if b == [] {
      assert a + b == a;
    } else {
      assert (a + b)[..|a + b| - 1] == a + b[..|b| - 1];
      UnannouncedMore(a, b[..|b| - 1]);
    }
  }

  /** The same but for announcements. */
  ghost predicate Alike(s: State, t: State) {
    Unannounced(s.output) == Unannounced(t.output) && s.lastExit == t.lastExit && s.calls == t.calls
  }

  lemma AlikeAfter(s: State, t: State, items: seq<Item>, lastExit: int, calls: seq<Call>)
    requires Alike(s, t)
    ensures Alike(State(s.output + items, lastExit, calls), State(t.output + items, lastExit, calls))
  {
    UnannouncedMore(s.output, items);
    UnannouncedMore(t.output, items);
  }

  lemma {:induction false} CommandRunsAlike(w: World, c: Command, s: State, t: State)
    requires Alike(s, t)
    ensures RunCommand(w, c, s).fault == RunCommand(w, c, t).fault && Alike(RunCommand(w, c, s).state, RunCommand(w, c, t).state)
    decreases c, 1
  {
    match c
    case Echo(message) => AlikeAfter(s, t, [Message(message)], s.lastExit, s.calls);
    case Cli(name, args) =>
      var r := RunCli(w, name, args, s);
      AlikeAfter(s, t, CliItems(w.cli(s.calls, Call(name, args))), r.state.lastExit, r.state.calls);
    case Exit(_) =>
    case If(_, thenBlock, elseBlock) =>
      BlockRunsAlike(w, thenBlock, s, t);
      BlockRunsAlike(w, elseBlock, s, t);
  }

  lemma {:induction false} BlockRunsAlike(w: World, cs: seq<Command>, s: State, t: State)
    requires Alike(s, t)
    ensures RunBlock(w, cs, s).fault == RunBlock(w, cs, t).fault && Alike(RunBlock(w, cs, s).state, RunBlock(w, cs, t).state)
    decreases cs, 0
  {
    if cs != [] {
      CommandRunsAlike(w, cs[0], s, t);
      if RunCommand(w, cs[0], s).fault.None? {
        BlockRunsAlike(w, cs[1..], RunCommand(w, cs[0], s).state, RunCommand(w, cs[0], t).state);
      }
    }
  }

  /** How a script ends when its commands, run as a block, end with a fault or without one. */
  ghost predicate EndsLike(e: Ending, r: Run) {
    && Unannounced(e.state.output) == Unannounced(r.state.output) && e.state.calls == r.state.calls
    && match r.fault
       case None => e.result == Completed && e.state.lastExit == r.state.lastExit
       case Some(ExitRequest(code)) => e.state.lastExit == code && e.result == if code == 0 then Completed else ExitedWith(code)
       case Some(fault) => e.result.FailedAt? && e.result.fault == fault && e.state.lastExit == r.state.lastExit
  }

  lemma AnnouncedIsAlike(s: State, t: State, step: nat, total: nat, c: Command)
    requires Alike(s, t)
    ensures Alike(Announce(s, step, total, c), t)
  {
    UnannouncedMore(s.output, [Step(step, total, CommandText(c))]);
    assert [Step(step, total, CommandText(c))][..0] == [];
    assert Unannounced(s.output) + [] == Unannounced(s.output);
  }

  /** Without cancellation a script does what its commands do as a block, in a conditional say, and ends as that block ends. */
  lemma {:induction false} ScriptIsItsBlock(w: World, cs: seq<Command>, i: nat, s: State, t: State)
    requires i <= |cs| && Alike(s, t) && forall n :: !w.cancelled(n)
    ensures EndsLike(RunScript(w, cs, i, s), RunBlock(w, cs[i..], t))
    decreases |cs| - i
  {
    if i < |cs| {
      var announced := Announce(s, i + 1, |cs|, cs[i]);
      AnnouncedIsAlike(s, t, i + 1, |cs|, cs[i]);
      CommandRunsAlike(w, cs[i], announced, t);
      assert cs[i..][0] == cs[i] && cs[i..][1..] == cs[i + 1..];
      if RunCommand(w, cs[i], announced).fault.None? {
        ScriptIsItsBlock(w, cs, i + 1, RunCommand(w, cs[i], announced).state, RunCommand(w, cs[i], t).state);
      }
    }
  }

  /** What single commands do. */
  lemma CommandsMean(w: World, s: State, text: string, code: int, a: seq<Command>, b: seq<Command>)
    ensures RunCommand(w, Echo(text), s) == Run(s.(output := s.output + [Message(text)]), None)
    ensures RunCommand(w, Exit(code), s) == Run(s, Some(ExitRequest(code)))
    ensures match EvaluateCondition(w, s.lastExit, text)
            case Truth(true) => RunCommand(w, If(text, a, b), s) == RunBlock(w, a, s)
            case Truth(false) => RunCommand(w, If(text, a, b), s) == RunBlock(w, b, s)
            case Broken(fault) => RunCommand(w, If(text, a, b), s) == Run(s, Some(fault))
    ensures CommandText(Echo(text)) == "echo " + text && CommandText(Exit(code)) == "exit"
    ensures CommandText(If(text, a, b)) == "if " + text + " then ... fi"
  {
  }

  // ---- Straight-line scripts ----

  /** A script without conditions. Every instruction belongs to a numbered step of the original script. */
  datatype Instruction =
    | Poll(index: nat)
    | Print(item: Item)
    | Invoke(step: nat, name: string, args: seq<string>)
    | Stop(step: nat, fault: Fault)

  function RunStraight(w: World, code: seq<Instruction>, s: State): Ending {
    if code == [] then Ending(s, Completed) else
    match code[0]
    case Poll(i) => if w.cancelled(i) then Ending(s, Cancelled) else RunStraight(w, code[1..], s)
    case Print(item) => RunStraight(w, code[1..], s.(output := s.output + [item]))
    case Stop(step, fault) => EndWith(s, step, fault)
    case Invoke(step, name, args) =>
      var r := RunCli(w, name, args, s);
      if r.fault.Some? then EndWith(r.state, step, r.fault.value) else RunStraight(w, code[1..], r.state)
  }

  /** Replaces every conditional by the branch its condition selects when the last exit code is zero. */
  function Straighten(w: World, c: Command, step: nat): seq<Instruction>
    decreases c, 1
  {
    match c
    case Echo(message) => [Print(Message(message))]
    case Cli(name, args) => [Invoke(step, name, args)]
    case Exit(code) => [Stop(step, ExitRequest(code))]
    case If(condition, thenBlock, elseBlock) =>
      match EvaluateCondition(w, 0, condition)
      case Broken(fault) => [Stop(step, fault)]
      case Truth(holds) => StraightenAll(w, if holds then thenBlock else elseBlock, step)
  }

  function StraightenAll(w: World, cs: seq<Command>, step: nat): seq<Instruction>
    decreases cs, 0
  {
    if cs == [] then [] else Straighten(w, cs[0], step) + StraightenAll(w, cs[1..], step)
  }

  function StraightenScript(w: World, cs: seq<Command>, i: nat): seq<Instruction>
    requires i <= |cs|
    decreases |cs| - i
  {
    if i == |cs| then [] else
    [Poll(i), Print(Step(i + 1, |cs|, CommandText(cs[i])))] + Straighten(w, cs[i], i + 1) + StraightenScript(w, cs, i + 1)
  }

  /** How running one structured command continues with the rest of a straight-line script. */
  function Continue(w: World, r: Run, step: nat, rest: seq<Instruction>): Ending {
    if r.fault.Some? then EndWith(r.state, step, r.fault.value) else RunStraight(w, rest, r.state)
  }

  lemma {:induction false} StraightCommand(w: World, c: Command, step: nat, rest: seq<Instruction>, s: State)
    requires s.lastExit == 0
    ensures RunStraight(w, Straighten(w, c, step) + rest, s) == Continue(w, RunCommand(w, c, s), step, rest)
    decreases c, 1
  {
    if c.If? {
      var verdict := EvaluateCondition(w, 0, c.condition);
      if verdict.Truth? {
        StraightBlock(w, if verdict.holds then c.thenBlock else c.elseBlock, step, rest, s);
      } else {
        assert ([Stop(step, verdict.fault)] + rest)[0] == Stop(step, verdict.fault);
      }
    } else {
      var code := Straighten(w, c, step);
      assert (code + rest)[0] == code[0] && (code + rest)[1..] == rest;
    }
  }

  lemma {:induction false} StraightBlock(w: World, cs: seq<Command>, step: nat, rest: seq<Instruction>, s: State)
    requires s.lastExit == 0
    ensures RunStraight(w, StraightenAll(w, cs, step) + rest, s) == Continue(w, RunBlock(w, cs, s), step, rest)
    decreases cs, 0
  {
    if cs == [] {
      assert StraightenAll(w, cs, step) + rest == rest;
    } else {
      var first, more := Straighten(w, cs[0], step), StraightenAll(w, cs[1..], step);
      assert StraightenAll(w, cs, step) + rest == first + (more + rest);
      StraightCommand(w, cs[0], step, more + rest, s);
      SuccessKeepsZero(w, cs[0], s);
      var r := RunCommand(w, cs[0], s);
      if r.fault.None? {
        StraightBlock(w, cs[1..], step, rest, r.state);
      }
    }
  }

  lemma CodeOfStep(poll: Instruction, announce: Instruction, body: seq<Instruction>, rest: seq<Instruction>)
    ensures var code := [poll, announce] + body + rest;
            code[0] == poll && code[1..] == [announce] + (body + rest) && code[1..][0] == announce && code[1..][1..] == body + rest
  {
  }

  lemma {:induction false} StraightScript(w: World, cs: seq<Command>, i: nat, s: State)
    requires i <= |cs| && s.lastExit == 0
    ensures RunStraight(w, StraightenScript(w, cs, i), s) == RunScript(w, cs, i, s)
    decreases |cs| - i
  {
    if i < |cs| {
      var announce := Print(Step(i + 1, |cs|, CommandText(cs[i])));
      var body, rest := Straighten(w, cs[i], i + 1), StraightenScript(w, cs, i + 1);
      CodeOfStep(Poll(i), announce, body, rest);
      if !w.cancelled(i) {
        var announced := Announce(s, i + 1, |cs|, cs[i]);
        StraightCommand(w, cs[i], i + 1, rest, announced);
        SuccessKeepsZero(w, cs[i], announced);
        var r := RunCommand(w, cs[i], announced);
        if r.fault.None? {
          StraightScript(w, cs, i + 1, r.state);
        }
      }
    }
  }

  /**
   On a fresh executor a script has the same output, calls, exit code and result as the straight-line script
   obtained by resolving all its conditions before the run, whatever the CLI does and whenever it is cancelled.
   */
  lemma ConditionsResolveBeforeTheRun(w: World, cs: seq<Command>)
    ensures RunScript(w, cs, 0, FRESH) == RunStraight(w, StraightenScript(w, cs, 0), FRESH)
  {
    StraightScript(w, cs, 0, FRESH);
  }

  /** A script that tells a zero last exit code from any other. */
  const PROBE := [If("last_exit == 0", [Echo("zero")], [])]

  lemma ProbeFields()
    ensures BatchText.Fields(BatchText.TrimSpace("last_exit == 0")) == ["last_exit", "==", "0"]
  {
    var words := ["last_exit", "==", "0"];
    assert BatchText.Join(words[1..], ' ') == "== 0" by {
      assert words[1..] == ["==", "0"] && ["==", "0"][1..] == ["0"];
    }
    assert BatchText.Join(words, ' ') == "last_exit == 0";
    BatchText.FieldsOfJoin(words);
    BatchText.TrimmedIsFixed("last_exit == 0");
  }

  lemma OnlyZeroPrintsZero(n: int)
    requires BatchText.FitsInt64(n)
    ensures BatchText.Itoa(n) == "0" <==> n == 0
  {
    BatchText.AtoiOfItoa(n);
    BatchText.AtoiOfItoa(0);
    assert BatchText.Itoa(0) == "0";
  }

  lemma ProbeCondition(w: World, lastExit: int)
    requires BatchText.FitsInt64(lastExit) && "0" !in w.variables
    ensures EvaluateCondition(w, lastExit, "last_exit == 0") == Truth(lastExit == 0)
  {
    ProbeFields();
    OnlyZeroPrintsZero(lastExit);
    assert ResolveValue(w, lastExit, "last_exit") == BatchText.Itoa(lastExit) && ResolveValue(w, lastExit, "0") == "0";
  }

  /** Exactly the executors whose last exit code is zero run every script as its resolved straight-line form. */
  lemma ResolvesIffLastExitZero(w: World, s: State)
    requires BatchText.FitsInt64(s.lastExit) && "0" !in w.variables && !w.cancelled(0)
    ensures (forall cs :: RunScript(w, cs, 0, s) == RunStraight(w, StraightenScript(w, cs, 0), s)) <==> s.lastExit == 0
  {
    if s.lastExit == 0 {
      forall cs
        ensures RunScript(w, cs, 0, s) == RunStraight(w, StraightenScript(w, cs, 0), s)
      {
        StraightScript(w, cs, 0, s);
      }
    } else {
      ProbeDiffers(w, s);
    }
  }

  lemma ProbeDiffers(w: World, s: State)
    requires BatchText.FitsInt64(s.lastExit) && "0" !in w.variables && !w.cancelled(0) && s.lastExit != 0
    ensures RunScript(w, PROBE, 0, s) != RunStraight(w, StraightenScript(w, PROBE, 0), s)
  {
    ProbeRunsNothing(w, s);
    ProbeRunsStraight(w, s);
  }

  lemma ProbeRunsNothing(w: World, s: State)
    requires BatchText.FitsInt64(s.lastExit) && "0" !in w.variables && !w.cancelled(0) && s.lastExit != 0
    ensures RunScript(w, PROBE, 0, s).state.output == Announce(s, 1, 1, PROBE[0]).output
  {
    ProbeCondition(w, s.lastExit);
    var announced := Announce(s, 1, 1, PROBE[0]);
    assert RunCommand(w, PROBE[0], announced) == RunBlock(w, [], announced) == Run(announced, None);
    assert RunScript(w, PROBE, 0, s) == RunScript(w, PROBE, 1, announced) == Ending(announced, Completed);
  }

  lemma ProbeRunsStraight(w: World, s: State)
    requires "0" !in w.variables && !w.cancelled(0)
    ensures RunStraight(w, StraightenScript(w, PROBE, 0), s).state.output ==
            Announce(s, 1, 1, PROBE[0]).output + [Message("zero")]
  {
    ProbeCondition(w, 0);
    var announced := Announce(s, 1, 1, PROBE[0]);
    var announce, say := Print(Step(1, 1, CommandText(PROBE[0]))), Print(Message("zero"));
    assert StraightenAll(w, [Echo("zero")], 1) == [say] by {
      assert [Echo("zero")][1..] == [];
    }
    assert StraightenScript(w, PROBE, 0) == [Poll(0), announce, say];
    assert [Poll(0), announce, say][1..] == [announce, say] && [announce, say][1..] == [say] && [say][1..] == [];
    assert RunStraight(w, [say], announced).state.output == announced.output + [Message("zero")];
  }
}
