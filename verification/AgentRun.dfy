/**
 An agent investigation: the bounded plan-and-call loop, the tool calls it leaves in the
 database, the citations it returns and the citations rebuilt from those tool calls later.

 Stored tool calls are kept in execution order.
 */
module AgentRun {
  import opened Sequences
  import opened Wrappers

  type Id = nat

  const MAX_AGENT_STEPS: nat := 8
  const TOOL_OUTPUT_MAX_CHARS: nat := 8000

  datatype Citation = Citation(chunkId: string, documentId: Id, preview: string)

  datatype Output = Output(content: Option<string>, citations: seq<Citation>, error: Option<string>, truncated: bool)

  datatype CallStatus = SUCCESS | FAILED

  datatype ToolCall = ToolCall(run: Id, tool: string, input: string, output: Output, status: CallStatus)

  /** What a registered handler does with its arguments. */
  datatype Handled = Returned(output: Output) | InvalidArguments | Raised

  /** `handle` also sees how many calls were stored before, so a tool may answer differently each time. */
  datatype Registry = Registry(names: set<string>, handle: (string, string, nat) -> Handled)

  datatype Plan = Finish | CallTool(tool: Option<string>, arguments: string)

  /** The model's side: `None` is a completion or a payload that cannot be used. */
  datatype Planner = Planner(plan: seq<Output> -> Option<Plan>, timedOut: nat -> bool, summarize: seq<Citation> -> bool)

  datatype AgentError = TimeoutExceeded | MissingToolName | UnknownTool | CompletionFailed

  // ----- keeping the first of each key

  /** The elements whose key occurs at no earlier position, in order. */
  function FirstsBy<T, K(==)>(key: T -> K, s: seq<T>): seq<T> {
    if s == [] then []
    else
      var rest, last := s[..|s| - 1], s[|s| - 1];
      if exists i :: 0 <= i < |rest| && key(rest[i]) == key(last) then FirstsBy(key, rest)
      else FirstsBy(key, rest) + [last]
  }

  ghost function KeysOf<T, K>(key: T -> K, s: seq<T>): set<K> {
    set i | 0 <= i < |s| :: key(s[i])
  }

  lemma FirstsBySnoc<T, K>(key: T -> K, s: seq<T>, x: T)
    ensures FirstsBy(key, s + [x]) == if key(x) in KeysOf(key, s) then FirstsBy(key, s) else FirstsBy(key, s) + [x]
    ensures KeysOf(key, s + [x]) == KeysOf(key, s) + {key(x)}
  {
    var all := s + [x];
    assert all[..|s|] == s && all[|s|] == x;
    forall k
      ensures k in KeysOf(key, all) <==> k in KeysOf(key, s) || k == key(x)
    {
      assert forall i :: 0 <= i < |s| ==> all[i] == s[i];
    }
  }

  /** No key is lost and none occurs twice. */
  lemma {:induction false} FirstsByKeys<T, K>(key: T -> K, s: seq<T>)
    ensures KeysOf(key, FirstsBy(key, s)) == KeysOf(key, s)
    ensures forall i, j :: 0 <= i < j < |FirstsBy(key, s)| ==> key(FirstsBy(key, s)[i]) != key(FirstsBy(key, s)[j])
    decreases |s|
  {
    if s != [] {
      var rest, last := s[..|s| - 1], s[|s| - 1];
      FirstsByKeys(key, rest);
      assert s == rest + [last];
      FirstsBySnoc(key, rest, last);
      if key(last) !in KeysOf(key, rest) {
        var r := FirstsBy(key, rest);
        FirstsBySnoc(key, r, last);
        forall i | 0 <= i < |r|
          ensures key(r[i]) != key(last)
        {
          assert key(r[i]) in KeysOf(key, r);
        }
      }
    }
  }

  ghost predicate IsFirst<T, K>(key: T -> K, s: seq<T>, i: nat)
    requires i < |s|
  {
    forall h :: 0 <= h < i ==> key(s[h]) != key(s[i])
  }

  /** `at` are positions in order of elements that are the first with their key, `kept` those elements. */
  ghost predicate PicksFirsts<T, K>(key: T -> K, s: seq<T>, at: seq<nat>, kept: seq<T>) {
    && |at| == |kept|
    && (forall k :: 0 <= k < |at| ==> at[k] < |s| && s[at[k]] == kept[k] && IsFirst(key, s, at[k]))
    && forall k, l :: 0 <= k < l < |at| ==> at[k] < at[l]
  }

  /** No other element is the first with its key. */
  ghost predicate NoOtherFirst<T, K>(key: T -> K, s: seq<T>, at: seq<nat>) {
    forall i: nat :: i < |s| && IsFirst(key, s, i) ==> i in at
  }

  /** Exactly the elements are kept that are the first with their key, in the order in which they stand. */
  lemma {:induction false} FirstsByFirst<T, K>(key: T -> K, s: seq<T>) returns (at: seq<nat>)
    ensures PicksFirsts(key, s, at, FirstsBy(key, s)) && NoOtherFirst(key, s, at)
    decreases |s|
  {
    if s == [] {
      at := [];
    } else {
      var n := |s| - 1;
      var before := FirstsByFirst(key, s[..n]);
      at := if IsFirst(key, s, n) then before + [n] else before;
      FirstsByLast(key, s);
      PicksOneMore(key, s, before, FirstsBy(key, s[..n]));
      NoOtherAfter(key, s, before, at);
    }
  }

  lemma FirstsByLast<T, K>(key: T -> K, s: seq<T>)
    requires s != []
    ensures
      var n := |s| - 1;
      var before := FirstsBy(key, s[..n]);
      FirstsBy(key, s) == if IsFirst(key, s, n) then before + [s[n]] else before
  {
    var n := |s| - 1;
    var rest := s[..n];
    if IsFirst(key, s, n) {
      forall i | 0 <= i < |rest|
        ensures key(rest[i]) != key(s[n])
      {
        assert rest[i] == s[i];
      }
    } else {
      var h :| 0 <= h < n && key(s[h]) == key(s[n]);
      assert key(rest[h]) == key(s[n]);
    }
  }

  lemma PicksOneMore<T, K>(key: T -> K, s: seq<T>, before: seq<nat>, kept: seq<T>)
    requires s != [] && PicksFirsts(key, s[..|s| - 1], before, kept)
    ensures PicksFirsts(key, s, before, kept)
    ensures IsFirst(key, s, |s| - 1) ==> PicksFirsts(key, s, before + [|s| - 1], kept + [s[|s| - 1]])
  {
    var n := |s| - 1;
    forall k | 0 <= k < |before|
      ensures s[before[k]] == kept[k] && IsFirst(key, s, before[k])
    {
      FirstInPrefix(key, s, n, before[k]);
    }
  }

  lemma NoOtherAfter<T, K>(key: T -> K, s: seq<T>, before: seq<nat>, at: seq<nat>)
    requires s != [] && NoOtherFirst(key, s[..|s| - 1], before)
    requires if IsFirst(key, s, |s| - 1) then at == before + [|s| - 1] else at == before
    ensures NoOtherFirst(key, s, at)
  {
    var n := |s| - 1;
    forall i: nat | i < |s| && IsFirst(key, s, i)
      ensures i in at
    {
      if i < n {
        FirstInPrefix(key, s, n, i);
        assert i in before;
      } else {
        assert at[|at| - 1] == n;
      }
    }
  }

  lemma FirstInPrefix<T, K>(key: T -> K, s: seq<T>, n: nat, i: nat)
    requires i < n <= |s|
    ensures IsFirst(key, s[..n], i) <==> IsFirst(key, s, i)
  {
    assert s[..n][i] == s[i] && forall h :: 0 <= h < i ==> s[..n][h] == s[h];
  }

  // ----- stored tool calls

  function RowsOf(rows: seq<ToolCall>, run: Id): seq<ToolCall> {
    if rows == [] then []
    else RowsOf(rows[..|rows| - 1], run) + if rows[|rows| - 1].run == run then [rows[|rows| - 1]] else []
  }

  lemma {:induction false} RowsOfOthers(rows: seq<ToolCall>, run: Id)
    requires forall i :: 0 <= i < |rows| ==> rows[i].run != run
    ensures RowsOf(rows, run) == []
  {
    if rows != [] {
      RowsOfOthers(rows[..|rows| - 1], run);
    }
  }

  lemma RowsOfSnoc(rows: seq<ToolCall>, row: ToolCall, run: Id)
    ensures RowsOf(rows + [row], run) == RowsOf(rows, run) + if row.run == run then [row] else []
  {
    assert (rows + [row])[..|rows|] == rows;
  }

  function CitationsIn(rows: seq<ToolCall>): seq<Citation> {
    if rows == [] then [] else CitationsIn(rows[..|rows| - 1]) + rows[|rows| - 1].output.citations
  }

  /** The citations of all rows, row by row, each row's in their order. */
  lemma {:induction false} CitationsExactly(rows: seq<ToolCall>, i: nat, j: nat)
    requires i < |rows| && j < |rows[i].output.citations|
    ensures var n := |CitationsIn(rows[..i])| + j;
      n < |CitationsIn(rows)| && CitationsIn(rows)[n] == rows[i].output.citations[j]
    ensures |CitationsIn(rows)| == |CitationsIn(rows[..|rows| - 1])| + |rows[|rows| - 1].output.citations|
    decreases |rows|
  {
    if i < |rows| - 1 {
      CitationsExactly(rows[..|rows| - 1], i, j);
      assert rows[..|rows| - 1][..i] == rows[..i];
    }
  }

  /** The citations a run's stored calls amount to: the first of each chunk, in call order. */
  function Rebuilt(rows: seq<ToolCall>): seq<Citation> {
    FirstsBy((c: Citation) => c.chunkId, CitationsIn(rows))
  }

  /** One output's citations added to those already seen. */
  method AddCitations(all: seq<Citation>, seen: set<string>, output: Output, ghost before: seq<Citation>)
    returns (all': seq<Citation>, seen': set<string>)
    requires var key := (c: Citation) => c.chunkId; all == FirstsBy(key, before) && seen == KeysOf(key, before)
    ensures var key := (c: Citation) => c.chunkId;
      all' == FirstsBy(key, before + output.citations) && seen' == KeysOf(key, before + output.citations)
  {
    ghost var key := (c: Citation) => c.chunkId;
    ghost var done := before;
    all', seen' := all, seen;
    for i := 0 to |output.citations|
      invariant before + output.citations == done + output.citations[i..]
      invariant all' == FirstsBy(key, done) && seen' == KeysOf(key, done)
    {
      var citation := output.citations[i];
      FirstsBySnoc(key, done, citation);
      NextDone(done, output.citations, i);
      done := done + [citation];
      if citation.chunkId in seen' {
        continue;
      }
      seen' := seen' + {citation.chunkId};
      all' := all' + [citation];
    }
    assert done + [] == done;
  }

  method ExtractCitations(toolCalls: seq<ToolCall>) returns (citations: seq<Citation>)
    ensures citations == Rebuilt(toolCalls)
  {
    citations := [];
    var seen := {};
    for i := 0 to |toolCalls|
      invariant citations == Rebuilt(toolCalls[..i])
      invariant seen == KeysOf((c: Citation) => c.chunkId, CitationsIn(toolCalls[..i]))
    {
      assert toolCalls[..i + 1][..i] == toolCalls[..i];
      citations, seen := AddCitations(citations, seen, toolCalls[i].output, CitationsIn(toolCalls[..i]));
    }
    assert toolCalls[..|toolCalls|] == toolCalls;
  }

  function TruncateOutput(output: Output): (r: Output)
    ensures r.citations == output.citations && r.error == output.error
    ensures r.content.Some? ==> |r.content.value| <= TOOL_OUTPUT_MAX_CHARS + 1
    ensures r != output ==>
      r.truncated && output.content.Some? && r.content.Some? && |output.content.value| > TOOL_OUTPUT_MAX_CHARS
    ensures output.content.Some? ==>
      && r.content.Some?
      && (r.content.value == output.content.value || output.content.value[..TOOL_OUTPUT_MAX_CHARS] < r.content.value)
  {
    match output.content
    case Some(text) =>
      if |text| > TOOL_OUTPUT_MAX_CHARS then
        output.(content := Some(text[..TOOL_OUTPUT_MAX_CHARS] + ['\U{2026}']), truncated := true)
      else output
    case None => output
  }

  function ErrorOutput(code: string): Output {
    Output(None, [], Some(code), false)
  }

  // ----- the run

  /** The rows a run has added to those before it. */
  ghost predicate Logged(before: seq<ToolCall>, mine: seq<ToolCall>, rows: seq<ToolCall>, run: Id) {
    && rows == before + mine
    && RowsOf(rows, run) == mine == rows[|before|..]
    && forall i :: |before| <= i < |rows| ==> rows[i].run == run
  }

  lemma LogRow(before: seq<ToolCall>, mine: seq<ToolCall>, rows: seq<ToolCall>, run: Id, row: ToolCall)
    requires Logged(before, mine, rows, run) && row.run == run
    ensures Logged(before, mine + [row], rows + [row], run)
  {
    RowsOfSnoc(rows, row, run);
  }

  /** The citations collected from the run's calls so far. */
  ghost predicate Gathered(mine: seq<ToolCall>, citations: seq<Citation>, seen: set<string>) {
    citations == Rebuilt(mine) && seen == KeysOf((c: Citation) => c.chunkId, CitationsIn(mine))
  }

  method Gather(ghost mine: seq<ToolCall>, ghost row: ToolCall, citations: seq<Citation>, seen: set<string>,
      output: Output)
    returns (citations': seq<Citation>, seen': set<string>)
    requires Gathered(mine, citations, seen) && row.output == output
    ensures Gathered(mine + [row], citations', seen')
  {
    assert (mine + [row])[..|mine|] == mine;
    citations', seen' := AddCitations(citations, seen, output, CitationsIn(mine));
  }

  // ----- which runs there are

  ghost function Outputs(mine: seq<ToolCall>): seq<Output> {
    seq(|mine|, i requires 0 <= i < |mine| => mine[i].output)
  }

  /** What is stored of a call that its handler answered in this way. */
  ghost predicate IsResultOf(handled: Handled, output: Output, status: CallStatus) {
    match handled
    case Returned(o) => status == SUCCESS && output == TruncateOutput(o)
    case InvalidArguments => status == FAILED && output == Output(None, [], Some("invalid_arguments"), false)
    case Raised => status == FAILED && output == Output(None, [], Some("execution_failed"), false)
  }

  /** Call `i` of a run is the one planned from the outputs before it, carried out in time. */
  ghost predicate CarriedOut(registry: Registry, planner: Planner, run: Id, before: nat, mine: seq<ToolCall>, i: nat)
    requires i < |mine|
  {
    var row := mine[i];
    && !planner.timedOut(i + 1)
    && planner.plan(Outputs(mine[..i])) == Some(CallTool(Some(row.tool), row.input))
    && row.run == run && row.tool in registry.names
    && IsResultOf(registry.handle(row.tool, row.input, before + i), row.output, row.status)
  }

  /** Step `steps + 1` is due, and this is its plan. */
  ghost predicate Planned(planner: Planner, mine: seq<ToolCall>, steps: nat, plan: Option<Plan>)
    requires steps <= |mine|
  {
    steps < MAX_AGENT_STEPS && !planner.timedOut(steps + 1) && planner.plan(Outputs(mine[..steps])) == plan
  }

  /** The loop is over after `steps` calls: no step is left, or the plan is to finish. */
  ghost predicate Finished(planner: Planner, mine: seq<ToolCall>, steps: nat)
    requires steps <= |mine|
  {
    steps == MAX_AGENT_STEPS || Planned(planner, mine, steps, Some(Finish))
  }

  /** Why a run ends the way it does, after `steps` calls that returned an output. */
  ghost predicate EndsWith(registry: Registry, planner: Planner, run: Id, mine: seq<ToolCall>, steps: nat,
      r: Result<(seq<Citation>, nat), AgentError>)
    requires steps <= |mine|
  {
    match r
    case Ok(answer) =>
      && Finished(planner, mine, steps)
      && answer == (Rebuilt(mine), steps) && (Rebuilt(mine) == [] || planner.summarize(Rebuilt(mine)))
    case Err(TimeoutExceeded) => steps < MAX_AGENT_STEPS && planner.timedOut(steps + 1)
    case Err(MissingToolName) => exists arguments :: Planned(planner, mine, steps, Some(CallTool(None, arguments)))
    case Err(UnknownTool) =>
      exists tool, arguments ::
        && tool !in registry.names && Planned(planner, mine, steps, Some(CallTool(Some(tool), arguments)))
        && mine[steps..] == [ToolCall(run, tool, arguments, Output(None, [], Some("unknown_tool"), false), FAILED)]
    case Err(CompletionFailed) =>
      || Planned(planner, mine, steps, None)
      || (Finished(planner, mine, steps) && Rebuilt(mine) != [] && !planner.summarize(Rebuilt(mine)))
  }

  /** `mine` are the rows of a whole run, `before` the number of rows stored earlier. */
  ghost predicate RunOf(registry: Registry, planner: Planner, run: Id, before: nat, mine: seq<ToolCall>, steps: nat,
      r: Result<(seq<Citation>, nat), AgentError>)
  {
    && steps <= MAX_AGENT_STEPS && |mine| == steps + (if r == Err(UnknownTool) then 1 else 0)
    && (forall i: nat :: i < steps ==> CarriedOut(registry, planner, run, before, mine, i))
    && EndsWith(registry, planner, run, mine, steps, r)
  }

  lemma {:induction false} SamePrefix(registry: Registry, planner: Planner, run: Id, before: nat,
      a: seq<ToolCall>, b: seq<ToolCall>, n: nat)
    requires n <= |a| && n <= |b|
    requires forall i: nat :: i < n ==>
      CarriedOut(registry, planner, run, before, a, i) && CarriedOut(registry, planner, run, before, b, i)
    ensures a[..n] == b[..n]
  {
    if n > 0 {
      SamePrefix(registry, planner, run, before, a, b, n - 1);
      assert CarriedOut(registry, planner, run, before, a, n - 1);
      assert CarriedOut(registry, planner, run, before, b, n - 1);
      assert a[..n] == a[..n - 1] + [a[n - 1]] && b[..n] == b[..n - 1] + [b[n - 1]];
    }
  }

  lemma StopsThere(registry: Registry, planner: Planner, run: Id, before: nat, a: seq<ToolCall>, n: nat,
      r: Result<(seq<Citation>, nat), AgentError>, b: seq<ToolCall>)
    requires RunOf(registry, planner, run, before, a, n, r) && n < |b| && a[..n] == b[..n] && n < MAX_AGENT_STEPS
    ensures !CarriedOut(registry, planner, run, before, b, n)
  {
  }

  lemma RunIsBounded(registry: Registry, planner: Planner, run: Id, before: nat, mine: seq<ToolCall>, steps: nat,
      r: Result<(seq<Citation>, nat), AgentError>)
    requires RunOf(registry, planner, run, before, mine, steps, r)
    ensures |mine| <= MAX_AGENT_STEPS + (if r == Err(UnknownTool) then 1 else 0)
    ensures r.Ok? ==> r.value == (Rebuilt(mine), |mine|) && |mine| <= MAX_AGENT_STEPS
  {
  }

  /** The planner and the tools leave no choice: they determine the calls, the number of steps and the answer. */
  lemma RunIsDetermined(registry: Registry, planner: Planner, run: Id, before: nat,
      a: seq<ToolCall>, m: nat, r: Result<(seq<Citation>, nat), AgentError>,
      b: seq<ToolCall>, n: nat, q: Result<(seq<Citation>, nat), AgentError>)
    requires RunOf(registry, planner, run, before, a, m, r) && RunOf(registry, planner, run, before, b, n, q)
    ensures a == b && m == n && r == q
  {
    SamePrefix(registry, planner, run, before, a, b, if m < n then m else n);
    if m < n {
      StopsThere(registry, planner, run, before, a, m, r, b);
    } else if n < m {
      StopsThere(registry, planner, run, before, b, n, q, a);
    } else {
      SameEnd(registry, planner, run, a, b, m, r, q);
    }
  }

  lemma SameEnd(registry: Registry, planner: Planner, run: Id, a: seq<ToolCall>, b: seq<ToolCall>, n: nat,
      r: Result<(seq<Citation>, nat), AgentError>, q: Result<(seq<Citation>, nat), AgentError>)
    requires n <= |a| && n <= |b| && a[..n] == b[..n]
    requires |a| == n + (if r == Err(UnknownTool) then 1 else 0) && |b| == n + (if q == Err(UnknownTool) then 1 else 0)
    requires EndsWith(registry, planner, run, a, n, r) && EndsWith(registry, planner, run, b, n, q)
    ensures a == b && r == q
  {
    assert a == a[..n] + a[n..] && b == b[..n] + b[n..];
  }

  lemma OneMoreCall(registry: Registry, planner: Planner, run: Id, before: nat, mine: seq<ToolCall>, row: ToolCall)
    requires forall i: nat :: i < |mine| ==> CarriedOut(registry, planner, run, before, mine, i)
    requires CarriedOut(registry, planner, run, before, mine + [row], |mine|)
    ensures forall i: nat :: i < |mine + [row]| ==> CarriedOut(registry, planner, run, before, mine + [row], i)
    ensures Outputs(mine + [row]) == Outputs(mine) + [row.output]
  {
    forall i: nat | i < |mine|
      ensures CarriedOut(registry, planner, run, before, mine + [row], i)
    {
      assert CarriedOut(registry, planner, run, before, mine, i);
      assert (mine + [row])[..i] == mine[..i];
    }
  }

  /** The loop between two steps: what it has stored, observed and collected. */
  ghost predicate Underway(registry: Registry, planner: Planner, run: Id, before: seq<ToolCall>, mine: seq<ToolCall>,
      rows: seq<ToolCall>, observations: seq<Output>)
  {
    && Logged(before, mine, rows, run) && observations == Outputs(mine)
    && forall i: nat :: i < |mine| ==> CarriedOut(registry, planner, run, |before|, mine, i)
  }

  lemma NothingYet(registry: Registry, planner: Planner, run: Id, rows: seq<ToolCall>)
    requires RowsOf(rows, run) == []
    ensures Underway(registry, planner, run, rows, [], rows, []) && Gathered([], [], {})
  {
    assert rows + [] == rows;
  }

  lemma UnderwayNext(registry: Registry, planner: Planner, run: Id, before: seq<ToolCall>, mine: seq<ToolCall>,
      rows: seq<ToolCall>, observations: seq<Output>, row: ToolCall)
    requires Underway(registry, planner, run, before, mine, rows, observations)
    requires !planner.timedOut(|mine| + 1) && row.run == run && row.tool in registry.names
    requires planner.plan(observations) == Some(CallTool(Some(row.tool), row.input))
    requires IsResultOf(registry.handle(row.tool, row.input, |rows|), row.output, row.status)
    ensures Underway(registry, planner, run, before, mine + [row], rows + [row], observations + [row.output])
  {
    LogRow(before, mine, rows, run, row);
    assert (mine + [row])[..|mine|] == mine;
    OneMoreCall(registry, planner, run, |before|, mine, row);
  }

  lemma UnderwayEnds(registry: Registry, planner: Planner, run: Id, before: seq<ToolCall>, mine: seq<ToolCall>,
      rows: seq<ToolCall>, observations: seq<Output>, r: Result<(seq<Citation>, nat), AgentError>)
    requires Underway(registry, planner, run, before, mine, rows, observations) && |mine| <= MAX_AGENT_STEPS
    requires r != Err(UnknownTool) && EndsWith(registry, planner, run, mine, |mine|, r)
    ensures RunOf(registry, planner, run, |before|, RowsOf(rows, run), |mine|, r)
  {
  }

  lemma UnderwayUnknown(registry: Registry, planner: Planner, run: Id, before: seq<ToolCall>, mine: seq<ToolCall>,
      rows: seq<ToolCall>, observations: seq<Output>, row: ToolCall)
    requires Underway(registry, planner, run, before, mine, rows, observations) && |mine| < MAX_AGENT_STEPS
    requires !planner.timedOut(|mine| + 1) && row.tool !in registry.names
    requires planner.plan(observations) == Some(CallTool(Some(row.tool), row.input))
    requires row == ToolCall(run, row.tool, row.input, Output(None, [], Some("unknown_tool"), false), FAILED)
    ensures RunOf(registry, planner, run, |before|, RowsOf(rows + [row], run), |mine|, Err(UnknownTool))
  {
    var all := mine + [row];
    LogRow(before, mine, rows, run, row);
    assert all[..|mine|] == mine && all[|mine|..] == [row];
    assert Planned(planner, all, |mine|, Some(CallTool(Some(row.tool), row.input)));
    forall i: nat | i < |mine|
      ensures CarriedOut(registry, planner, run, |before|, all, i)
    {
      assert CarriedOut(registry, planner, run, |before|, mine, i);
      assert all[..i] == mine[..i];
    }
  }

  /** Whether the loop goes on after a step. */
  datatype Progress = Continue | Stop | Abort(error: AgentError)

  datatype RunStatus = RUNNING | COMPLETED | RUN_FAILED

  datatype RunRow = RunRow(status: RunStatus, stepCount: Option<nat>)

  datatype Response = Response(run: Id, citations: seq<Citation>, toolCalls: nat)

  /** What the run itself answered. */
  ghost function AnswerOf(r: Result<Response, AgentError>): Result<(seq<Citation>, nat), AgentError> {
    match r
    case Ok(response) => Ok((response.citations, response.toolCalls))
    case Err(error) => Err(error)
  }

  class AgentStore {
    const registry: Registry
    var runs: map<Id, RunRow>
    var rows: seq<ToolCall>
    var nextRun: Id

    /** Stored calls belong to runs that exist. */
    ghost predicate Valid()
      reads this
    {
      && (forall i :: 0 <= i < |rows| ==> rows[i].run < nextRun)
      && (forall r :: r in runs ==> r < nextRun)
    }

    constructor (registry: Registry)
      ensures Valid() && this.registry == registry && rows == [] && runs == map[]
    {
      this.registry := registry;
      runs, rows, nextRun := map[], [], 0;
    }

    /** Validates the tool, runs it, and stores exactly one row whatever happens. */
    method Execute(run: Id, tool: string, arguments: string)
      returns (r: Result<Output, AgentError>, ghost row: ToolCall)
      modifies this`rows
      ensures rows == old(rows) + [row] && row.run == run && row.tool == tool && row.input == arguments
      ensures r.Ok? ==>
        row.output == r.value && IsResultOf(registry.handle(tool, arguments, |old(rows)|), row.output, row.status)
      ensures r.Err? ==> row.output == ErrorOutput("unknown_tool") && row.status == FAILED
      ensures r == if tool !in registry.names then Err(UnknownTool) else Ok(TruncateOutput(
        match registry.handle(tool, arguments, |old(rows)|)
        case Returned(output) => output
        case InvalidArguments => ErrorOutput("invalid_arguments")
        case Raised => ErrorOutput("execution_failed")))
    {
      if tool !in registry.names {
        row := ToolCall(run, tool, arguments, ErrorOutput("unknown_tool"), FAILED);
        rows := rows + [ToolCall(run, tool, arguments, ErrorOutput("unknown_tool"), FAILED)];
        return Err(UnknownTool), row;
      }
      var output, status;
      match registry.handle(tool, arguments, |rows|) {
        case Returned(o) => output, status := o, SUCCESS;
        case InvalidArguments => output, status := ErrorOutput("invalid_arguments"), FAILED;
        case Raised => output, status := ErrorOutput("execution_failed"), FAILED;
      }
      var truncatedOutput := TruncateOutput(output);
      row := ToolCall(run, tool, arguments, truncatedOutput, status);
      rows := rows + [ToolCall(run, tool, arguments, truncatedOutput, status)];
      return Ok(truncatedOutput), row;
    }

    /** The body of the loop: one plan, and the call it asks for. */
    method TakeStep(run: Id, planner: Planner, step: nat, observations: seq<Output>, citations: seq<Citation>,
        seen: set<string>, ghost before: seq<ToolCall>, ghost mine: seq<ToolCall>)
      returns (progress: Progress, observations': seq<Output>, citations': seq<Citation>, seen': set<string>,
          ghost mine': seq<ToolCall>)
      requires Underway(registry, planner, run, before, mine, rows, observations) && Gathered(mine, citations, seen)
      requires step == |mine| + 1 <= MAX_AGENT_STEPS
      modifies this`rows
      ensures progress.Continue? ==>
        && |mine'| == step && Underway(registry, planner, run, before, mine', rows, observations')
        && Gathered(mine', citations', seen')
      ensures progress.Stop? ==>
        && rows == old(rows) && observations' == observations && citations' == citations && mine' == mine
        && Finished(planner, mine, |mine|)
      ensures progress.Abort? ==>
        && Logged(before, RowsOf(rows, run), rows, run)
        && RunOf(registry, planner, run, |before|, RowsOf(rows, run), |mine|, Err(progress.error))
    {
      observations', citations', seen', mine' := observations, citations, seen, mine;
      assert mine[..|mine|] == mine;
      if planner.timedOut(step) {
        UnderwayEnds(registry, planner, run, before, mine, rows, observations, Err(TimeoutExceeded));
        return Abort(TimeoutExceeded), observations, citations, seen, mine;
      }
      var plan := planner.plan(observations);
      if plan.None? {
        UnderwayEnds(registry, planner, run, before, mine, rows, observations, Err(CompletionFailed));
        return Abort(CompletionFailed), observations, citations, seen, mine;
      }
      if plan.value.Finish? {
        return Stop, observations, citations, seen, mine;
      }
      if plan.value.tool.None? {
        assert Planned(planner, mine, |mine|, Some(CallTool(None, plan.value.arguments)));
        UnderwayEnds(registry, planner, run, before, mine, rows, observations, Err(MissingToolName));
        return Abort(MissingToolName), observations, citations, seen, mine;
      }
      ghost var start := rows;
      var output, row := Execute(run, plan.value.tool.value, plan.value.arguments);
      if output.Err? {
        UnderwayUnknown(registry, planner, run, before, mine, start, observations, row);
        return Abort(UnknownTool), observations, citations, seen, mine;
      }
      UnderwayNext(registry, planner, run, before, mine, start, observations, row);
      citations', seen' := Gather(mine, row, citations, seen, output.value);
      return Continue, observations + [output.value], citations', seen', mine + [row];
    }

    /**
     The plan-and-call loop of a run without earlier rows.  `steps` counts the calls that
     returned an output.
     */
    method Orchestrate(run: Id, planner: Planner)
      returns (r: Result<(seq<Citation>, nat), AgentError>, ghost steps: nat)
      requires RowsOf(rows, run) == []
      modifies this`rows
      ensures Logged(old(rows), RowsOf(rows, run), rows, run)
      ensures RunOf(registry, planner, run, |old(rows)|, RowsOf(rows, run), steps, r)
    {
      var observations: seq<Output>, citations: seq<Citation>, seen: set<string> := [], [], {};
      var step := 1;
      ghost var before, mine: seq<ToolCall> := rows, [];
      NothingYet(registry, planner, run, rows);
      while step <= MAX_AGENT_STEPS
        invariant 1 <= step == |mine| + 1 <= MAX_AGENT_STEPS + 1
        invariant Underway(registry, planner, run, before, mine, rows, observations)
        invariant Gathered(mine, citations, seen)
        decreases MAX_AGENT_STEPS + 1 - step
      {
        steps := |mine|;
        var progress;
        progress, observations, citations, seen, mine :=
          TakeStep(run, planner, step, observations, citations, seen, before, mine);
        match progress {
          case Abort(error) => return Err(error), steps;
          case Stop => break;
          case Continue => step := step + 1;
        }
      }
      r := Conclude(run, planner, citations, before, mine, observations);
      return r, |mine|;
    }

    /** The summary and the count of calls after the loop. */
    method Conclude(run: Id, planner: Planner, citations: seq<Citation>, ghost before: seq<ToolCall>,
        ghost mine: seq<ToolCall>, ghost observations: seq<Output>)
      returns (r: Result<(seq<Citation>, nat), AgentError>)
      requires Underway(registry, planner, run, before, mine, rows, observations) && citations == Rebuilt(mine)
      requires |mine| <= MAX_AGENT_STEPS && Finished(planner, mine, |mine|)
      ensures Logged(before, RowsOf(rows, run), rows, run)
      ensures RunOf(registry, planner, run, |before|, RowsOf(rows, run), |mine|, r)
    {
      if citations != [] && !planner.summarize(citations) {
        UnderwayEnds(registry, planner, run, before, mine, rows, observations, Err(CompletionFailed));
        return Err(CompletionFailed);
      }
      var count := CountToolCalls(run);
      UnderwayEnds(registry, planner, run, before, mine, rows, observations, Ok((citations, count)));
      return Ok((citations, count));
    }

    method CountToolCalls(run: Id) returns (n: nat)
      ensures n == |RowsOf(rows, run)|
    {
      n := |RowsOf(rows, run)|;
    }

    /** Creates a run, executes it, and records how it ended. */
    method StartInvestigation(planner: Planner) returns (r: Result<Response, AgentError>, ghost steps: nat)
      requires Valid()
      modifies this
      ensures Valid() && nextRun == old(nextRun) + 1 && Investigated(old(rows), old(nextRun), rows)
      ensures RunOf(registry, planner, old(nextRun), |old(rows)|, RowsOf(rows, old(nextRun)), steps, AnswerOf(r))
      ensures forall other: Id :: other < old(nextRun) ==> RowsOf(rows, other) == RowsOf(old(rows), other)
      ensures forall other :: other in old(runs) ==> other in runs && runs[other] == old(runs)[other]
      ensures var run := old(nextRun);
        && run in runs
        && (r.Ok? ==>
          && r.value == Response(run, Rebuilt(RowsOf(rows, run)), |RowsOf(rows, run)|)
          && r.value.toolCalls <= MAX_AGENT_STEPS
          && runs[run] == RunRow(COMPLETED, Some(r.value.toolCalls)))
        && (r.Err? ==>
          && runs[run] == RunRow(RUN_FAILED, None)
          && |RowsOf(rows, run)| <= MAX_AGENT_STEPS + if r.error == UnknownTool then 1 else 0)
    {
      var run := nextRun;
      RowsOfOthers(rows, run);
      runs, nextRun := runs[run := RunRow(RUNNING, None)], nextRun + 1;
      var result;
      result, steps := Orchestrate(run, planner);
      RunIsBounded(registry, planner, run, |old(rows)|, RowsOf(rows, run), steps, result);
      OthersKeepRows(old(rows), rows, run);
      if result.Err? {
        runs := runs[run := RunRow(RUN_FAILED, None)];
        return Err(result.error), steps;
      }
      runs := runs[run := RunRow(COMPLETED, Some(result.value.1))];
      return Ok(Response(run, result.value.0, result.value.1)), steps;
    }

    /** The citations of a run, rebuilt from its stored calls. */
    method GetRunCitations(run: Id) returns (citations: seq<Citation>)
      ensures citations == Rebuilt(RowsOf(rows, run))
    {
      citations := ExtractCitations(RowsOf(rows, run));
    }
  }

  lemma {:induction false} OtherRunsKeepRows(before: seq<ToolCall>, after: seq<ToolCall>, run: Id, other: Id)
    requires before <= after && other != run
    requires forall i :: |before| <= i < |after| ==> after[i].run == run
    ensures RowsOf(after, other) == RowsOf(before, other)
    decreases |after|
  {
    if |before| < |after| {
      OtherRunsKeepRows(before, after[..|after| - 1], run, other);
    } else {
      assert before == after;
    }
  }

  lemma OthersKeepRows(before: seq<ToolCall>, after: seq<ToolCall>, run: Id)
    requires Logged(before, RowsOf(after, run), after, run)
    ensures Investigated(before, run, after)
    ensures forall other: Id :: other < run ==> RowsOf(after, other) == RowsOf(before, other)
  {
    forall other: Id | other < run
      ensures RowsOf(after, other) == RowsOf(before, other)
    {
      OtherRunsKeepRows(before, after, run, other);
    }
  }

  /** What an investigation does to the stored calls: it adds calls of its own run. */
  ghost predicate Investigated(before: seq<ToolCall>, run: Id, after: seq<ToolCall>) {
    before <= after && forall i :: |before| <= i < |after| ==> after[i].run == run
  }

  /** The stored calls after each of a sequence of investigations, whose runs are `first`, `first + 1`, ... */
  ghost predicate History(rows: seq<seq<ToolCall>>, first: Id) {
    rows != [] && forall i :: 0 <= i < |rows| - 1 ==> Stage(rows, first, i)
  }

  ghost predicate Stage(rows: seq<seq<ToolCall>>, first: Id, i: nat)
    requires i < |rows| - 1
  {
    Investigated(rows[i], first + i, rows[i + 1])
  }

  /**
   Whatever is investigated later, the stored calls of an earlier run stay the same, and with
   them the citations rebuilt from them: those of the response that the run was answered with.
   */
  lemma {:induction false} CitationsStay(rows: seq<seq<ToolCall>>, first: Id, run: Id)
    requires History(rows, first) && run < first
    ensures RowsOf(rows[|rows| - 1], run) == RowsOf(rows[0], run)
    ensures Rebuilt(RowsOf(rows[|rows| - 1], run)) == Rebuilt(RowsOf(rows[0], run))
    decreases |rows|
  {
    if |rows| > 1 {
      var n := |rows| - 1;
      forall i: nat | i < n - 1
        ensures Stage(rows[..n], first, i)
      {
        assert Stage(rows, first, i);
      }
      CitationsStay(rows[..n], first, run);
      assert Stage(rows, first, n - 1);
      OtherRunsKeepRows(rows[n - 1], rows[n], first + (n - 1), run);
    }
  }

  /** The rebuilt citations are unique by chunk and leave out no chunk that any call cited. */
  lemma RebuiltIsUnique(rows: seq<ToolCall>)
    ensures forall i, j :: 0 <= i < j < |Rebuilt(rows)| ==> Rebuilt(rows)[i].chunkId != Rebuilt(rows)[j].chunkId
    ensures KeysOf((c: Citation) => c.chunkId, Rebuilt(rows)) == KeysOf((c: Citation) => c.chunkId, CitationsIn(rows))
  {
    FirstsByKeys((c: Citation) => c.chunkId, CitationsIn(rows));
  }

  // ----- related documents

  /** The items that are identifiers of cited documents; `None` is an item that is no identifier. */
  function Grounded(items: seq<Option<Id>>, allowed: set<Id>): seq<Id> {
    if items == [] then []
    else
      var rest, last := Grounded(items[..|items| - 1], allowed), items[|items| - 1];
      if last.Some? && last.value in allowed then rest + [last.value] else rest
  }

  lemma GroundedSnoc(items: seq<Option<Id>>, k: nat, allowed: set<Id>)
    requires k < |items|
    ensures Grounded(items[..k + 1], allowed)
      == if items[k].Some? && items[k].value in allowed
         then Grounded(items[..k], allowed) + [items[k].value]
         else Grounded(items[..k], allowed)
  {
    assert items[..k + 1][..k] == items[..k];
  }

  /** What is kept: the identifiers that are both listed and allowed. */
  lemma {:induction false} GroundedExactly(items: seq<Option<Id>>, allowed: set<Id>, d: Id)
    ensures d in Grounded(items, allowed) <==> d in allowed && Some(d) in items
  {
    if items != [] {
      GroundedExactly(items[..|items| - 1], allowed, d);
      assert items == items[..|items| - 1] + [items[|items| - 1]];
    }
  }

  /** `at` are positions in order of items that are allowed, `kept` the identifiers there. */
  ghost predicate PicksAllowed(items: seq<Option<Id>>, allowed: set<Id>, at: seq<nat>, kept: seq<Id>) {
    && |at| == |kept|
    && (forall k :: 0 <= k < |at| ==> at[k] < |items| && items[at[k]] == Some(kept[k]) && kept[k] in allowed)
    && forall k, l :: 0 <= k < l < |at| ==> at[k] < at[l]
  }

  ghost predicate NoOtherAllowed(items: seq<Option<Id>>, allowed: set<Id>, at: seq<nat>) {
    forall i: nat :: i < |items| && items[i].Some? && items[i].value in allowed ==> i in at
  }

  /** Every listing of an allowed identifier is kept, in order. */
  lemma {:induction false} GroundedInOrder(items: seq<Option<Id>>, allowed: set<Id>) returns (at: seq<nat>)
    ensures PicksAllowed(items, allowed, at, Grounded(items, allowed)) && NoOtherAllowed(items, allowed, at)
  {
    if items == [] {
      at := [];
    } else {
      var n := |items| - 1;
      var before := GroundedInOrder(items[..n], allowed);
      at := if items[n].Some? && items[n].value in allowed then before + [n] else before;
      AllowedNext(items, allowed, before, at);
      PicksNextAllowed(items, allowed, before, Grounded(items[..n], allowed));
    }
  }

  lemma PicksNextAllowed(items: seq<Option<Id>>, allowed: set<Id>, before: seq<nat>, kept: seq<Id>)
    requires items != [] && PicksAllowed(items[..|items| - 1], allowed, before, kept)
    ensures PicksAllowed(items, allowed, before, kept)
    ensures var last := items[|items| - 1];
      last.Some? && last.value in allowed ==>
        PicksAllowed(items, allowed, before + [|items| - 1], kept + [last.value])
  {
    assert forall k :: 0 <= k < |before| ==> items[..|items| - 1][before[k]] == items[before[k]];
  }

  lemma AllowedNext(items: seq<Option<Id>>, allowed: set<Id>, before: seq<nat>, at: seq<nat>)
    requires items != [] && NoOtherAllowed(items[..|items| - 1], allowed, before)
    requires var last := items[|items| - 1];
      if last.Some? && last.value in allowed then at == before + [|items| - 1] else at == before
    ensures NoOtherAllowed(items, allowed, at)
  {
    var n := |items| - 1;
    forall i: nat | i < |items| && items[i].Some? && items[i].value in allowed
      ensures i in at
    {
      if i < n {
        assert items[..n][i] == items[i];
      } else {
        assert at[|at| - 1] == n;
      }
    }
  }

  /** An identifier is its own key. */
  function Itself(d: Id): Id {
    d
  }

  lemma OwnKeys(docs: seq<Id>, d: Id)
    ensures d in KeysOf(Itself, docs) <==> d in docs
  {
    assert forall k :: 0 <= k < |docs| ==> Itself(docs[k]) == docs[k];
  }

  /** The identifiers listed and allowed, each once, in the order of their first listing. */
  method FilterRelatedDocuments(items: seq<Option<Id>>, allowed: set<Id>) returns (docs: seq<Id>)
    ensures docs == FirstsBy(Itself, Grounded(items, allowed))
  {
    docs := [];
    for i := 0 to |items|
      invariant docs == FirstsBy(Itself, Grounded(items[..i], allowed))
    {
      GroundedSnoc(items, i, allowed);
      ghost var kept := Grounded(items[..i], allowed);
      if items[i].None? {
        continue;
      }
      var docId := items[i].value;
      FirstsBySnoc(Itself, kept, docId);
      FirstsByKeys(Itself, kept);
      OwnKeys(docs, docId);
      if docId in allowed && docId !in docs {
        docs := docs + [docId];
      }
    }
    assert items[..|items|] == items;
  }

  /** No document is invented, none is lost, none is named twice. */
  lemma FilteredExactly(items: seq<Option<Id>>, allowed: set<Id>, d: Id)
    ensures var docs := FirstsBy(Itself, Grounded(items, allowed));
      && (d in docs <==> d in allowed && Some(d) in items)
      && forall i, j :: 0 <= i < j < |docs| ==> docs[i] != docs[j]
  {
    var kept := Grounded(items, allowed);
    FirstsByKeys(Itself, kept);
    OwnKeys(FirstsBy(Itself, kept), d);
    OwnKeys(kept, d);
    GroundedExactly(items, allowed, d);
  }
}
