/**
 * The ReWOO step-execution engine: a planner writes a plan, the plan is
 * parsed into steps, the steps run one at a time with the evidence gathered
 * so far substituted into their inputs, and a solver answers from the
 * transcript. The planner, the search tool and the chat model are
 * parameters (`Services`); the graph the library wires up is the loop in
 * `Run`, with a bound on the number of tool runs standing in for the
 * library's recursion limit.
 */
module ReWOO {
  import opened Wrappers
  import opened Strings
  import opened PlanParser

  /** What the chat model returns: the message text, and the message's `str()` rendering. */
  datatype Reply = Reply(content: string, rendered: string)

  /**
   * The external calls. `planner` maps the task to the planner's reply text
   * (the prompt template is part of it), `search` maps a query to the `str()`
   * of the search result, `llm` maps a prompt to the chat model's reply.
   */
  datatype Services = Services(planner: string -> string, search: string -> string, llm: string -> Reply)

  /** The exceptions the engine can end in. */
  datatype Failure =
    | TypeError       // `None - 1`: the tool node ran when no step was left
    | IndexError      // the current step is past the end of `steps`
    | ValueError      // a tool other than `Google` and `LLM`
    | RecursionLimit  // the bound on tool runs was used up

  /** The `results` dict: (variable, evidence) pairs in insertion order. */
  type Evidence = seq<(string, string)>

  function Keys(d: Evidence): (ks: seq<string>)
    ensures |ks| == |d| && forall i :: 0 <= i < |d| ==> ks[i] == d[i].0
  {
    if d == [] then [] else [d[0].0] + Keys(d[1..])
  }

  predicate DistinctKeys(d: Evidence) {
    forall i, j :: 0 <= i < j < |d| ==> d[i].0 != d[j].0
  }

  /** `d.get(k)`. */
  function Lookup(d: Evidence, k: string): Option<string> {
    if d == [] then None else if d[0].0 == k then Some(d[0].1) else Lookup(d[1..], k)
  }

  /** `d[k] = v`. */
  function Put(d: Evidence, k: string, v: string): Evidence {
    if d == [] then [(k, v)]
    else if d[0].0 == k then [(k, v)] + d[1..]
    else [d[0]] + Put(d[1..], k, v)
  }

  /** After `d[k] = v`, `k` maps to `v` and every other key maps to what it did before. */
  lemma {:induction false} PutLookup(d: Evidence, k: string, v: string)
    ensures Lookup(Put(d, k, v), k) == Some(v)
    ensures forall k' :: k' != k ==> Lookup(Put(d, k, v), k') == Lookup(d, k')
  {
    if d != [] && d[0].0 != k {
      PutLookup(d[1..], k, v);
    }
  }

  /** A key already present keeps its place: the keys, and so the length, do not change. */
  lemma {:induction false} PutExisting(d: Evidence, k: string, v: string)
    requires k in Keys(d)
    ensures Keys(Put(d, k, v)) == Keys(d)
  {
    if d[0].0 != k {
      assert Keys(d) == [d[0].0] + Keys(d[1..]);
      PutExisting(d[1..], k, v);
    }
  }

  /** A new key goes to the end and nothing before it changes. */
  lemma {:induction false} PutNew(d: Evidence, k: string, v: string)
    requires k !in Keys(d)
    ensures Put(d, k, v) == d + [(k, v)]
  {
    if d != [] {
      assert Keys(d) == [d[0].0] + Keys(d[1..]);
      PutNew(d[1..], k, v);
      assert [d[0]] + (d[1..] + [(k, v)]) == d + [(k, v)];
    }
  }

  /**
   * `for k, v in d.items(): text = text.replace(k, v)`: one key at a time,
   * in insertion order, each replacement applied to the text the earlier
   * ones produced.
   */
  function Substitute(text: string, d: Evidence): string
    decreases |d|
  {
    if d == [] then text
    else Replace(Substitute(text, d[..|d| - 1]), d[|d| - 1].0, d[|d| - 1].1)
  }

  /** Substituting with one more entry is replacing that entry's key in the earlier result. */
  lemma SubstituteSnoc(text: string, d: Evidence, k: string, v: string)
    ensures Substitute(text, d + [(k, v)]) == Replace(Substitute(text, d), k, v)
  {
    assert (d + [(k, v)])[..|d|] == d;
  }

  /** A key that occurs in the text is cut out at its occurrences and the value put in between. */
  lemma SubstituteLastKey(text: string, d: Evidence, k: string, v: string)
    requires k != []
    ensures Substitute(text, d + [(k, v)]) == Join(v, Split(Substitute(text, d), k))
  {
    SubstituteSnoc(text, d, k, v);
    ReplaceIsJoinOfSplit(Substitute(text, d), k, v);
  }

  /** Text holding none of the keys passes through unchanged. */
  lemma {:induction false} SubstituteNoKeys(text: string, d: Evidence)
    requires forall i :: 0 <= i < |d| ==> d[i].0 != [] && !Contains(text, d[i].0)
    ensures Substitute(text, d) == text
    decreases |d|
  {
    if d != [] {
      SubstituteNoKeys(text, d[..|d| - 1]);
      ReplaceAbsent(text, d[|d| - 1].0, d[|d| - 1].1);
    }
  }

  /** The graph state. */
  datatype State = State(
    task: string,
    planString: string,
    steps: seq<Step>,
    results: Option<Evidence>, // absent and None behave alike
    result: Option<string>)

  /** `(state["results"] or {}) if "results" in state else {}`. */
  function EvidenceOf(st: State): Evidence {
    if st.results.Some? then st.results.value else []
  }

  /** `_get_current_task`: the 1-based number of the next step, or None once every step has a result. */
  function CurrentTask(st: State): (k: Option<nat>)
    ensures st.results.None? ==> k == Some(1)
    ensures st.results.Some? ==> (k.None? <==> |st.results.value| == |st.steps|)
    ensures k.Some? ==> k.value >= 1 && (st.results.Some? ==> k.value == |st.results.value| + 1)
  {
    if st.results.None? then Some(1)
    else if |st.results.value| == |st.steps| then None
    else Some(|st.results.value| + 1)
  }

  datatype Node = ToolNode | SolveNode

  /** `_route`: to the solver once no step is left, else back to the tool node. */
  function Route(st: State): (n: Node)
    ensures n == SolveNode <==> CurrentTask(st).None?
  {
    if CurrentTask(st).None? then SolveNode else ToolNode
  }

  predicate Known(tool: string) {
    tool == "Google" || tool == "LLM"
  }

  /** The tool dispatch of `tool_execution`, with `str(result)` already taken. */
  function Dispatch(tool: string, input: string, svc: Services): (r: Result<string, Failure>)
    ensures r.Err? <==> !Known(tool)
    ensures r.Err? ==> r.error == ValueError
  {
    if tool == "Google" then Ok(svc.search(input))
    else if tool == "LLM" then Ok(svc.llm(input).rendered)
    else Err(ValueError)
  }

  /**
   * What the tool node computes: the new `results`, or the exception it
   * raises. A successful run stores, under the current step's variable, the
   * tool's answer to the step's input with the earlier evidence substituted
   * into it; every other entry stays as it was.
   */
  function ToolStep(st: State, svc: Services): (r: Result<Evidence, Failure>)
    ensures r.Ok? <==> CurrentTask(st).Some? && CurrentTask(st).value <= |st.steps| &&
                       Known(st.steps[CurrentTask(st).value - 1].tool)
    ensures r.Ok? ==> var step := st.steps[CurrentTask(st).value - 1];
      r.value == Put(EvidenceOf(st), step.variable, Dispatch(step.tool, Substitute(step.input, EvidenceOf(st)), svc).value)
    ensures CurrentTask(st).None? ==> r == Err(TypeError)
    ensures CurrentTask(st).Some? && CurrentTask(st).value > |st.steps| ==> r == Err(IndexError)
  {
    match CurrentTask(st)
    case None => Err(TypeError)
    case Some(k) =>
      if k - 1 >= |st.steps| then Err(IndexError)
      else
        var step := st.steps[k - 1];
        var evidence := EvidenceOf(st);
        match Dispatch(step.tool, Substitute(step.input, evidence), svc)
        case Err(e) => Err(e)
        case Ok(value) => Ok(Put(evidence, step.variable, value))
  }

  /** `tool_execution`. */
  method ToolExecution(st: State, svc: Services) returns (r: Result<Evidence, Failure>)
    ensures r == ToolStep(st, svc)
  {
    var current := CurrentTask(st);
    if current.None? {
      return Err(TypeError);
    }
    var k := current.value;
    if k - 1 >= |st.steps| {
      return Err(IndexError);
    }
    var step := st.steps[k - 1];
    var results := EvidenceOf(st);
    var input := step.input;
    for i := 0 to |results|
      invariant input == Substitute(step.input, results[..i])
    {
      assert results[..i + 1][..i] == results[..i];
      input := Replace(input, results[i].0, results[i].1);
    }
    assert results[..|results|] == results;
    var value: string;
    if step.tool == "Google" {
      value := svc.search(input);
    } else if step.tool == "LLM" {
      value := svc.llm(input).rendered;
    } else {
      return Err(ValueError);
    }
    return Ok(Put(results, step.variable, value));
  }

  /** One line of the solver's transcript: the description, then the step with evidence substituted into its variable and its input. */
  function Entry(step: Step, d: Evidence): string {
    "Plan: " + step.description + "\n" + Substitute(step.variable, d) + " = " + step.tool + "[" + Substitute(step.input, d) + "]"
  }

  /** The `plan` that `solve` accumulates: the entries in step order, with no separator. */
  function Transcript(steps: seq<Step>, d: Evidence): string
    decreases |steps|
  {
    if steps == [] then "" else Transcript(steps[..|steps| - 1], d) + Entry(steps[|steps| - 1], d)
  }

  /** The transcript of two runs of steps is the transcript of the first followed by that of the second. */
  lemma {:induction false} TranscriptAppend(a: seq<Step>, b: seq<Step>, d: Evidence)
    ensures Transcript(a + b, d) == Transcript(a, d) + Transcript(b, d)
    decreases |b|
  {
    if b == [] {
      assert a + b == a;
    } else {
      var front := b[..|b| - 1];
      SnocConcat(a, b);
      TranscriptAppend(a, front, d);
      SeqAssoc(Transcript(a, d), Transcript(front, d), Entry(b[|b| - 1], d));
    }
  }

  /** `solver_prompt.format(plan=plan, task=task)`. */
  /** Before any evidence, an entry is the step written in the planner's own format. */
  lemma EntryWithoutEvidence(step: Step)
    ensures Entry(step, []) == StepLine(step)
  {
  }

  /** The transcript of one step is its entry. */
  lemma TranscriptOne(step: Step)
    ensures Transcript([step], []) == StepLine(step)
  {
    assert [step][..0] == [];
    EntryWithoutEvidence(step);
  }

  /** Before any evidence, the transcript is the plan's steps listed in the planner's format. */
  lemma {:induction false} TranscriptWithoutEvidence(steps: seq<Step>)
    ensures Transcript(steps, []) == Lines(steps)
    decreases |steps|
  {
    if steps != [] {
      assert steps == [steps[0]] + steps[1..];
      TranscriptAppend([steps[0]], steps[1..], []);
      TranscriptWithoutEvidence(steps[1..]);
      TranscriptOne(steps[0]);
    }
  }

  /** The transcript `solve` writes for steps with no evidence yet parses back into those steps. */
  lemma TranscriptParses(steps: seq<Step>)
    requires forall i :: 0 <= i < |steps| ==> Writable(steps[i])
    ensures Parse(Transcript(steps, [])) == steps
  {
    TranscriptWithoutEvidence(steps);
    ParseLines(steps);
  }

  function SolverPrompt(plan: string, task: string): string {
    "\nSolve the following task or problem. To solve the problem, we have made step-by-step Plan and retrieved corresponding Evidence to each Plan. Use them with caution since long evidence might contain irrelevant information.\n\n"
    + "Plan: " + plan + "\n\n"
    + "Now solve the question or task according to provided Evidence above. Respond with the answer directly with no extra words.\n\n"
    + "Task: " + task + "\nResponse:\n"
  }

  /** The answer `solve` returns for a transcript: the content of one chat-model call on the formatted prompt. */
  function Answer(transcript: string, task: string, svc: Services): string {
    svc.llm(SolverPrompt(transcript, task)).content
  }

  /** The inner loop of `solve`: the evidence substituted into a step's variable and input, key by key. */
  method SubstituteStep(step: Step, results: Evidence) returns (name: string, input: string)
    ensures name == Substitute(step.variable, results)
    ensures input == Substitute(step.input, results)
  {
    name := step.variable;
    input := step.input;
    for i := 0 to |results|
      invariant input == Substitute(step.input, results[..i])
      invariant name == Substitute(step.variable, results[..i])
    {
      assert results[..i + 1][..i] == results[..i];
      input := Replace(input, results[i].0, results[i].1);
      name := Replace(name, results[i].0, results[i].1);
    }
    assert results[..|results|] == results;
  }

  /** The loop of `solve` that accumulates `plan`. */
  method BuildTranscript(steps: seq<Step>, results: Evidence) returns (transcript: string)
    ensures transcript == Transcript(steps, results)
  {
    transcript := "";
    for j := 0 to |steps|
      invariant transcript == Transcript(steps[..j], results)
    {
      var step := steps[j];
      var name, input := SubstituteStep(step, results);
      var entry := "Plan: " + step.description + "\n" + name + " = " + step.tool + "[" + input + "]";
      assert entry == Entry(step, results);
      assert steps[..j + 1][..j] == steps[..j];
      transcript := transcript + entry;
    }
    assert steps[..|steps|] == steps;
  }

  /** `solve`: the transcript of every step, and the chat model's answer to the prompt built from it. */
  method Solve(st: State, svc: Services) returns (transcript: string, answer: string)
    ensures transcript == Transcript(st.steps, EvidenceOf(st))
    ensures answer == Answer(transcript, st.task, svc)
  {
    transcript := BuildTranscript(st.steps, EvidenceOf(st));
    var prompt := SolverPrompt(transcript, st.task);
    answer := svc.llm(prompt).content;
  }

  /** The state after the plan node: the planner's text kept verbatim and its parsed steps. */
  function Planned(task: string, svc: Services): (st: State)
    ensures st.planString == svc.planner(task) && st.steps == Parse(svc.planner(task))
    ensures st.results.None? && st.result.None? && st.task == task
  {
    var content := svc.planner(task);
    State(task, content, Parse(content), None, None)
  }

  /**
   * The tool node run again and again, as `_route` decides, with at most
   * `fuel` runs: the state in which the router first chooses the solver,
   * or the exception the run ends in.
   */
  function ToolLoop(st: State, svc: Services, fuel: nat): Result<State, Failure>
    decreases fuel
  {
    if fuel == 0 then Err(RecursionLimit)
    else
      match ToolStep(st, svc)
      case Err(e) => Err(e)
      case Ok(ev) =>
        var next := st.(results := Some(ev));
        if Route(next) == SolveNode then Ok(next) else ToolLoop(next, svc, fuel - 1)
  }

  /** The whole graph: plan, then the tool loop, then solve. */
  function Pipeline(task: string, svc: Services, fuel: nat): Result<State, Failure> {
    match ToolLoop(Planned(task, svc), svc, fuel)
    case Err(e) => Err(e)
    case Ok(st) => Ok(st.(result := Some(Answer(Transcript(st.steps, EvidenceOf(st)), st.task, svc))))
  }

  /** `app.invoke({"task": task})` with at most `fuel` tool runs. */
  method Run(task: string, svc: Services, fuel: nat) returns (r: Result<State, Failure>)
    ensures r == Pipeline(task, svc, fuel)
  {
    var st := PlanNode(task, svc);
    var looped := RunTools(st, svc, fuel);
    if looped.Err? {
      PipelineErr(task, svc, fuel, looped.error);
      return Err(looped.error);
    }
    var done := looped.value;
    PipelineOk(task, svc, fuel, done);
    var transcript, answer := Solve(done, svc);
    r := Ok(done.(result := Some(answer)));
  }

  /** `get_plan`: the planner's reply kept verbatim as `plan_string`, and its steps. */
  method PlanNode(task: string, svc: Services) returns (st: State)
    ensures st == Planned(task, svc)
  {
    st := State(task, "", [], None, None);
    var content := svc.planner(task);
    st := st.(planString := content, steps := Parse(content));
  }

  /** The edges between the tool node and the router: the tool node runs until `_route` picks the solver. */
  method RunTools(st0: State, svc: Services, fuel: nat) returns (r: Result<State, Failure>)
    ensures r == ToolLoop(st0, svc, fuel)
  {
    var st := st0;
    var left := fuel;
    while true
      invariant ToolLoop(st, svc, left) == ToolLoop(st0, svc, fuel)
      decreases left
    {
      if left == 0 {
        return Err(RecursionLimit);
      }
      var step := ToolExecution(st, svc);
      if step.Err? {
        return Err(step.error);
      }
      LoopTurn(st, svc, left, step.value);
      st := st.(results := Some(step.value));
      if Route(st) == SolveNode {
        return Ok(st);
      }
      left := left - 1;
    }
  }

  /** A tool loop that ends in an exception ends the whole run in it. */
  lemma PipelineErr(task: string, svc: Services, fuel: nat, e: Failure)
    requires ToolLoop(Planned(task, svc), svc, fuel) == Err(e)
    ensures Pipeline(task, svc, fuel) == Err(e)
  {
  }

  /** A tool loop that reaches the solver in state `st` ends the run with the answer to `st`'s transcript. */
  lemma PipelineOk(task: string, svc: Services, fuel: nat, st: State)
    requires ToolLoop(Planned(task, svc), svc, fuel) == Ok(st)
    ensures Pipeline(task, svc, fuel) == Ok(st.(result := Some(Answer(Transcript(st.steps, EvidenceOf(st)), st.task, svc))))
  {
  }

  /** The cascade the insertion order causes: `#E1` is replaced first, so `#E10` never gets its own value. */
  lemma ShorterKeyFirst()
    ensures Substitute("#E10", [("#E1", "a"), ("#E10", "b")]) == "a0"
  {
    SubstituteSnoc("#E10", [("#E1", "a")], "#E10", "b");
    assert Replace("#E10", "#E1", "a") == "a0" by {
      assert OccursAt("#E10", "#E1", 0);
      assert Replace("0", "#E1", "a") == "0";
    }
    assert Replace("a0", "#E10", "b") == "a0";
  }

  /** A later key also rewrites the text an earlier value brought in. */
  lemma LaterKeyRewritesEarlierValue()
    ensures Substitute("#E1", [("#E1", "#E2"), ("#E2", "x")]) == "x"
  {
    SubstituteSnoc("#E1", [("#E1", "#E2")], "#E2", "x");
    assert Replace("#E1", "#E1", "#E2") == "#E2" by {
      assert OccursAt("#E1", "#E1", 0);
    }
    assert Replace("#E2", "#E2", "x") == "x" by {
      assert OccursAt("#E2", "#E2", 0);
    }
  }

  predicate DistinctVariables(steps: seq<Step>) {
    forall i, j :: 0 <= i < j < |steps| ==> steps[i].variable != steps[j].variable
  }

  /** The first `n` steps name a tool the engine knows. */
  predicate KnownUpTo(steps: seq<Step>, n: nat) {
    forall i :: 0 <= i < n && i < |steps| ==> Known(steps[i].tool)
  }

  /**
   * The evidence after the first `k` steps have run, when their variables
   * are distinct: one entry per step, in step order, each computed from the
   * evidence before it.
   */
  function Expected(steps: seq<Step>, svc: Services, k: nat): (ev: Evidence)
    requires k <= |steps| && KnownUpTo(steps, k)
    ensures |ev| == k
  {
    if k == 0 then []
    else
      var ev := Expected(steps, svc, k - 1);
      var step := steps[k - 1];
      ev + [(step.variable, Dispatch(step.tool, Substitute(step.input, ev), svc).value)]
  }

  /** The expected evidence is keyed by the steps' variables, in step order. */
  lemma {:induction false} ExpectedKeys(steps: seq<Step>, svc: Services, k: nat)
    requires k <= |steps| && KnownUpTo(steps, k)
    ensures forall i :: 0 <= i < k ==> Expected(steps, svc, k)[i].0 == steps[i].variable
  {
    if k > 0 {
      ExpectedKeys(steps, svc, k - 1);
      var ev := Expected(steps, svc, k - 1);
      assert Expected(steps, svc, k)[..k - 1] == ev;
    }
  }

  /** Where the engine stands after `k` steps: no results yet, or exactly the expected ones. */
  predicate AtStep(st: State, svc: Services, k: nat)
    requires k <= |st.steps| && KnownUpTo(st.steps, k)
  {
    st.results == Some(Expected(st.steps, svc, k)) || (k == 0 && st.results.None?)
  }

  /** One turn of the tool loop after a successful tool run. */
  lemma LoopTurn(st: State, svc: Services, fuel: nat, ev: Evidence)
    requires fuel > 0 && ToolStep(st, svc) == Ok(ev)
    ensures var next := st.(results := Some(ev));
      ToolLoop(st, svc, fuel) == if Route(next) == SolveNode then Ok(next) else ToolLoop(next, svc, fuel - 1)
  {
  }

  /** With distinct variables, running step `k` appends its evidence. */
  lemma RunOneStep(st: State, svc: Services, k: nat)
    requires DistinctVariables(st.steps) && k < |st.steps| && KnownUpTo(st.steps, k + 1)
    requires AtStep(st, svc, k)
    ensures ToolStep(st, svc) == Ok(Expected(st.steps, svc, k + 1))
  {
    var ev := Expected(st.steps, svc, k);
    assert EvidenceOf(st) == ev;
    assert CurrentTask(st) == Some(k + 1);
    var v := st.steps[k].variable;
    assert v !in Keys(ev) by {
      ExpectedKeys(st.steps, svc, k);
    }
    PutNew(ev, v, Dispatch(st.steps[k].tool, Substitute(st.steps[k].input, ev), svc).value);
  }

  /**
   * From step `k`, with distinct variables and known tools, the loop runs
   * each remaining step once and reaches the solver exactly when the last
   * one has run: it needs `|steps| - k` runs, and fewer hit the bound.
   */
  lemma {:induction false} RunsRemainingSteps(st: State, svc: Services, k: nat, fuel: nat)
    requires DistinctVariables(st.steps) && k < |st.steps| && KnownUpTo(st.steps, |st.steps|)
    requires AtStep(st, svc, k)
    ensures ToolLoop(st, svc, fuel) ==
      if fuel >= |st.steps| - k then Ok(st.(results := Some(Expected(st.steps, svc, |st.steps|))))
      else Err(RecursionLimit)
    decreases |st.steps| - k
  {
    if fuel > 0 {
      var next := st.(results := Some(Expected(st.steps, svc, k + 1)));
      if k + 1 < |st.steps| {
        RunsRemainingSteps(next, svc, k + 1, fuel - 1);
        RemainingStep(st, svc, k, fuel);
      } else {
        LastStepSolves(st, svc, k, fuel);
      }
    }
  }

  /** The inductive step of `RunsRemainingSteps`: its claim for step `k + 1` gives it for step `k`. */
  lemma RemainingStep(st: State, svc: Services, k: nat, fuel: nat)
    requires DistinctVariables(st.steps) && k + 1 < |st.steps| && KnownUpTo(st.steps, |st.steps|)
    requires AtStep(st, svc, k) && fuel > 0
    requires var next := st.(results := Some(Expected(st.steps, svc, k + 1)));
      ToolLoop(next, svc, fuel - 1) ==
        if fuel - 1 >= |st.steps| - (k + 1) then Ok(next.(results := Some(Expected(st.steps, svc, |st.steps|))))
        else Err(RecursionLimit)
    ensures ToolLoop(st, svc, fuel) ==
      if fuel >= |st.steps| - k then Ok(st.(results := Some(Expected(st.steps, svc, |st.steps|))))
      else Err(RecursionLimit)
  {
    var next := st.(results := Some(Expected(st.steps, svc, k + 1)));
    KnownStepThenLoop(st, svc, k, |st.steps| - 1, fuel);
    assert next.(results := Some(Expected(st.steps, svc, |st.steps|))) == st.(results := Some(Expected(st.steps, svc, |st.steps|)));
  }

  /** Running the last step sends the engine to the solver. */
  lemma LastStepSolves(st: State, svc: Services, k: nat, fuel: nat)
    requires DistinctVariables(st.steps) && k + 1 == |st.steps| && KnownUpTo(st.steps, |st.steps|)
    requires AtStep(st, svc, k) && fuel > 0
    ensures ToolLoop(st, svc, fuel) == Ok(st.(results := Some(Expected(st.steps, svc, |st.steps|))))
  {
    var ev := Expected(st.steps, svc, k + 1);
    RunOneStep(st, svc, k);
    LoopTurn(st, svc, fuel, ev);
    assert Route(st.(results := Some(ev))) == SolveNode;
  }

  /**
   * A plan of `N >= 1` steps with distinct variables and known tools
   * reaches the solver after exactly `N` tool runs, with one piece of
   * evidence per step, and the answer comes from the transcript of them.
   */
  lemma SolveAfterEveryStep(task: string, svc: Services)
    requires var steps := Parse(svc.planner(task));
      |steps| >= 1 && DistinctVariables(steps) && KnownUpTo(steps, |steps|)
    ensures var st := Planned(task, svc);
      ToolLoop(st, svc, |st.steps|) == Ok(st.(results := Some(Expected(st.steps, svc, |st.steps|))))
    ensures var st := Planned(task, svc);
      ToolLoop(st, svc, |st.steps| - 1) == Err(RecursionLimit)
  {
    var st := Planned(task, svc);
    RunsRemainingSteps(st, svc, 0, |st.steps|);
    RunsRemainingSteps(st, svc, 0, |st.steps| - 1);
  }

  /**
   * A step with a tool other than `Google` and `LLM` ends the run in
   * `ValueError` once the steps before it have run; the bound is hit first
   * if it allows too few runs.
   */
  lemma {:induction false} StopsAtUnknownTool(st: State, svc: Services, k: nat, j: nat, fuel: nat)
    requires DistinctVariables(st.steps) && k <= j < |st.steps| && KnownUpTo(st.steps, j) && !Known(st.steps[j].tool)
    requires AtStep(st, svc, k)
    ensures ToolLoop(st, svc, fuel) == if fuel > j - k then Err(ValueError) else Err(RecursionLimit)
    decreases j - k
  {
    if fuel > 0 {
      if k < j {
        var next := st.(results := Some(Expected(st.steps, svc, k + 1)));
        StopsAtUnknownTool(next, svc, k + 1, j, fuel - 1);
        UnknownToolStep(st, svc, k, j, fuel);
      } else {
        UnknownToolHere(st, svc, k, fuel);
      }
    }
  }

  /** A known step before `j` runs and leaves the loop to go on from the next step. */
  lemma KnownStepThenLoop(st: State, svc: Services, k: nat, j: nat, fuel: nat)
    requires DistinctVariables(st.steps) && k < j < |st.steps| && KnownUpTo(st.steps, j)
    requires AtStep(st, svc, k) && fuel > 0
    ensures ToolLoop(st, svc, fuel) == ToolLoop(st.(results := Some(Expected(st.steps, svc, k + 1))), svc, fuel - 1)
  {
    var ev := Expected(st.steps, svc, k + 1);
    RunOneStep(st, svc, k);
    LoopTurn(st, svc, fuel, ev);
    assert |ev| == k + 1 < |st.steps|;
    assert Route(st.(results := Some(ev))) == ToolNode;
  }

  /** The inductive step of `StopsAtUnknownTool`: its claim for step `k + 1` gives it for step `k`. */
  lemma UnknownToolStep(st: State, svc: Services, k: nat, j: nat, fuel: nat)
    requires DistinctVariables(st.steps) && k < j < |st.steps| && KnownUpTo(st.steps, j)
    requires AtStep(st, svc, k) && fuel > 0
    requires ToolLoop(st.(results := Some(Expected(st.steps, svc, k + 1))), svc, fuel - 1) ==
      if fuel - 1 > j - (k + 1) then Err(ValueError) else Err(RecursionLimit)
    ensures ToolLoop(st, svc, fuel) == if fuel > j - k then Err(ValueError) else Err(RecursionLimit)
  {
    KnownStepThenLoop(st, svc, k, j, fuel);
  }

  /** The current step's unknown tool ends the loop. */
  lemma UnknownToolHere(st: State, svc: Services, k: nat, fuel: nat)
    requires k < |st.steps| && KnownUpTo(st.steps, k) && !Known(st.steps[k].tool)
    requires AtStep(st, svc, k) && fuel > 0
    ensures ToolLoop(st, svc, fuel) == Err(ValueError)
  {
    assert EvidenceOf(st) == Expected(st.steps, svc, k);
    assert CurrentTask(st) == Some(k + 1);
  }

  /**
   * When the current step's variable already has evidence, storing its
   * result overwrites that entry, `results` does not grow, and the router
   * sends the engine back to the same step until the bound is used up.
   */
  lemma {:induction false} RepeatedVariableSpins(st: State, svc: Services, ev: Evidence, fuel: nat)
    requires st.results == Some(ev) && |ev| < |st.steps|
    requires st.steps[|ev|].variable in Keys(ev) && Known(st.steps[|ev|].tool)
    ensures ToolLoop(st, svc, fuel) == Err(RecursionLimit)
    decreases fuel
  {
    if fuel > 0 {
      var step := st.steps[|ev|];
      var ev' := Put(ev, step.variable, Dispatch(step.tool, Substitute(step.input, ev), svc).value);
      assert ToolStep(st, svc) == Ok(ev');
      PutExisting(ev, step.variable, Dispatch(step.tool, Substitute(step.input, ev), svc).value);
      assert |ev'| == |Keys(ev')| == |Keys(ev)| == |ev|;
      RepeatedVariableSpins(st.(results := Some(ev')), svc, ev', fuel - 1);
    }
  }

  /** A plan whose first two steps share a variable never reaches the solver. */
  lemma SharedVariableNeverSolves(st: State, svc: Services, fuel: nat)
    requires st.results.None? && |st.steps| >= 2 && st.steps[0].variable == st.steps[1].variable
    requires Known(st.steps[0].tool) && Known(st.steps[1].tool)
    ensures ToolLoop(st, svc, fuel) == Err(RecursionLimit)
  {
    if fuel > 0 {
      var step := st.steps[0];
      var ev := [(step.variable, Dispatch(step.tool, Substitute(step.input, []), svc).value)];
      assert ToolStep(st, svc) == Ok(ev);
      assert Keys(ev) == [step.variable];
      RepeatedVariableSpins(st.(results := Some(ev)), svc, ev, fuel - 1);
    }
  }

  /**
   * A plan with no steps still goes to the tool node, whose current step is
   * 1; indexing the empty step list raises `IndexError`.
   */
  lemma NoStepsIndexError(task: string, svc: Services, fuel: nat)
    requires Parse(svc.planner(task)) == [] && fuel >= 1
    ensures ToolLoop(Planned(task, svc), svc, fuel) == Err(IndexError)
  {
  }
}
