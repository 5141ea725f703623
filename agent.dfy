/** The scheduling agent around the language model: the initial state built
    from a request, the planner's iteration counter and tool-call log, the
    routing rule, the planner/tools loop, and the assembly of the response.
    The model's replies are an oracle; the tool node only answers in the
    message history. */
module Agent {
  import opened Wrappers
  import opened Slots
  import Gaps

  // ---------------------------------------------------------------------
  // Messages and state
  // ---------------------------------------------------------------------

  /** A tool call requested by the model; `name` may be missing. */
  datatype ToolCall = ToolCall(name: Option<string>)

  datatype Message =
    | Human                            // the initial request prompt
    | Ai(toolCalls: seq<ToolCall>)     // a model reply
    | ToolAnswer(callName: string)     // one answer of the tool node

  /** One `{"name", "iteration"}` entry of `tool_calls_made`. */
  datatype ToolRecord = ToolRecord(name: string, iteration: int)

  datatype Status = InProgress | Complete | Partial | Failed

  /** The id of an immutable slot: its date key and its start time. */
  datatype SlotId = SlotId(date: Date, start: int)

  /** The fields of a scheduling request that the agent reads. */
  datatype Request = Request(
    channelName: string,
    media: seq<string>,
    userInstructions: Option<string>,
    windowDays: int,
    startDate: int,
    endDate: Option<int>,
    dailySlots: seq<Slot>,
    preferredSlots: Option<seq<TimeOfDay>>,
    costTier: string,
    maxIterations: int,
    qualityThreshold: real)

  /** Structured constraints parsed from the user's instructions; every
      part may be missing. */
  datatype SchedulingConstraints = SchedulingConstraints(
    contentRules: Option<seq<map<string, string>>>,
    repetitionRules: Option<map<string, string>>,
    qualityPreferences: Option<map<string, string>>)

  /** The agent state record. */
  datatype State = State(
    messages: seq<Message>,
    channelName: string,
    media: seq<string>,
    userInstructions: Option<string>,
    windowDays: int,
    startDate: int,
    endDate: int,
    preferredSlots: Option<seq<TimeOfDay>>,
    costTier: string,
    maxIterations: int,
    qualityThreshold: real,
    constraints: Option<SchedulingConstraints>,
    schedule: ScheduleDict,
    immutableSlots: set<SlotId>,
    mediaAnalysis: Option<map<string, string>>,
    gapAnalysis: Option<seq<Gaps.Gap>>,
    iterations: int,
    confidenceScore: real,
    completionStatus: Status,
    keyDecisions: seq<string>,
    toolCallsMade: seq<ToolRecord>)

  /** Python truthiness of an optional string. */
  predicate Truthy(s: Option<string>) {
    s.Some? && s.value != ""
  }

  // ---------------------------------------------------------------------
  // initialize_state
  // ---------------------------------------------------------------------

  /** The date-keyed schedule after appending each slot under the date of
      its own start, in input order. */
  function GroupByDate(slots: seq<Slot>): (sd: ScheduleDict)
  {
    if slots == [] then EmptySchedule
    else
      var prev := GroupByDate(slots[..|slots| - 1]);
      var x := slots[|slots| - 1];
      prev.Put(DateOf(x.start), prev.Get(DateOf(x.start)) + [x])
  }

  function SlotIds(slots: seq<Slot>): set<SlotId> {
    set x | x in slots :: SlotId(DateOf(x.start), x.start)
  }

  lemma GroupByDateSnoc(slots: seq<Slot>, x: Slot)
    ensures var prev := GroupByDate(slots);
            GroupByDate(slots + [x]) == prev.Put(DateOf(x.start), prev.Get(DateOf(x.start)) + [x])
  {
    assert (slots + [x])[..|slots|] == slots;
  }

  lemma SlotIdsSnoc(slots: seq<Slot>, x: Slot)
    ensures SlotIds(slots + [x]) == SlotIds(slots) + {SlotId(DateOf(x.start), x.start)}
  {
    assert forall y :: y in slots + [x] <==> y in slots || y == x;
  }

  /** The slots of `slots` starting on `d`, in input order. */
  function OnDate(slots: seq<Slot>, d: Date): (r: seq<Slot>)
    ensures forall x | x in r :: x in slots && DateOf(x.start) == d
  {
    if slots == [] then []
    else
      var x := slots[|slots| - 1];
      OnDate(slots[..|slots| - 1], d) + (if DateOf(x.start) == d then [x] else [])
  }

  /** The requested end date, or the start date plus the scheduling window when none was given. */
  function EndDate(req: Request): int {
    req.endDate.GetOr(req.startDate + req.windowDays * MinutesPerDay)
  }

  /** The pass of `initialize_state` over the pre-scheduled slots: each slot
      is appended to the list of its start date, and its id is added to the
      immutable set. */
  method FileSlots(slots: seq<Slot>) returns (schedule: ScheduleDict, immutable: set<SlotId>)
    ensures schedule == GroupByDate(slots)
    ensures immutable == SlotIds(slots)
  {
    immutable := {};
    schedule := EmptySchedule;
    for i := 0 to |slots|
      invariant schedule == GroupByDate(slots[..i])
      invariant immutable == SlotIds(slots[..i])
    {
      var slot := slots[i];
      var dayKey := DateOf(slot.start);
      assert slots[..i + 1] == slots[..i] + [slot];
      GroupByDateSnoc(slots[..i], slot);
      SlotIdsSnoc(slots[..i], slot);
      schedule := schedule.Put(dayKey, schedule.Get(dayKey) + [slot]);
      immutable := immutable + {SlotId(dayKey, slot.start)};
    }
    assert slots[..|slots|] == slots;
  }

  /** `initialize_state`: one pass over the pre-scheduled slots fills the
      schedule and the set of immutable slot ids; the request's inputs are
      copied, the parsed constraints and both analysis caches start empty,
      and the control fields start at zero iterations, zero confidence and
      "in progress". No overlap check is made. */
  method InitializeState(req: Request) returns (st: State)
    ensures st.schedule == GroupByDate(req.dailySlots)
    ensures st.immutableSlots == SlotIds(req.dailySlots)
    ensures st.endDate == EndDate(req)
    ensures st.messages == [Human]
    ensures st.iterations == 0 && st.completionStatus == InProgress
    ensures st.keyDecisions == [] && st.toolCallsMade == []
    ensures st.maxIterations == req.maxIterations && st.userInstructions == req.userInstructions
    ensures st.windowDays == req.windowDays && st.startDate == req.startDate
    ensures st.preferredSlots == req.preferredSlots
    ensures st.channelName == req.channelName && st.media == req.media && st.costTier == req.costTier
    ensures st.qualityThreshold == req.qualityThreshold
    ensures st.constraints.None? && st.mediaAnalysis.None? && st.gapAnalysis.None?
    ensures st.confidenceScore == 0.0
  {
    var endDate := req.endDate.GetOr(req.startDate + req.windowDays * MinutesPerDay);
    var schedule, immutable := FileSlots(req.dailySlots);
    st := State(
      [Human], req.channelName, req.media, req.userInstructions, req.windowDays,
      req.startDate, endDate, req.preferredSlots, req.costTier, req.maxIterations,
      req.qualityThreshold, None, schedule, immutable, None, None, 0, 0.0, InProgress, [], []);
  }

  lemma {:induction false} GroupByDateValid(slots: seq<Slot>)
    ensures GroupByDate(slots).Valid()
  {
    if slots != [] {
      var p, x := slots[..|slots| - 1], slots[|slots| - 1];
      GroupByDateValid(p);
      var prev := GroupByDate(p);
      PutValid(prev, DateOf(x.start), prev.Get(DateOf(x.start)) + [x]);
    }
  }

  /** Each day of the grouped schedule holds exactly the input slots that
      start on that day, in input order, and the dict is well formed. */
  lemma {:induction false} GroupByDateFilesByStart(slots: seq<Slot>)
    ensures GroupByDate(slots).Valid()
    ensures forall d :: GroupByDate(slots).Get(d) == OnDate(slots, d)
  {
    GroupByDateValid(slots);
    if slots != [] {
      GroupByDateFilesByStart(slots[..|slots| - 1]);
    }
  }

  /** No slot is lost or invented: the grouped schedule holds exactly the
      input slots, and its slot count is their number. */
  lemma {:induction false} GroupByDateKeepsSlots(slots: seq<Slot>)
    ensures multiset(Flatten(GroupByDate(slots))) == multiset(slots)
    ensures SlotCount(GroupByDate(slots)) == |slots|
  {
    if slots != [] {
      var p, x := slots[..|slots| - 1], slots[|slots| - 1];
      GroupByDateKeepsSlots(p);
      GroupByDateValid(p);
      var prev := GroupByDate(p);
      var d := DateOf(x.start);
      PutAddsOneSlot(prev, d, prev.Get(d) + [x], x);
      LastSplit(slots);
    }
  }

  // ---------------------------------------------------------------------
  // agent_planner and should_continue
  // ---------------------------------------------------------------------

  /** The name a tool call is logged under; "unknown" when it has none. */
  function CallName(c: ToolCall): string {
    c.name.GetOr("unknown")
  }

  /** `agent_planner` after the model replied with `reply`: the counter goes
      up by one, the reply is appended to the messages, and one record per
      requested call, tagged with the new counter, is appended to a copy of
      the log. Nothing else changes. */
  method AgentPlanner(st: State, reply: seq<ToolCall>) returns (next: State)
    ensures next.iterations == st.iterations + 1
    ensures next.messages == st.messages + [Ai(reply)]
    ensures |next.toolCallsMade| == |st.toolCallsMade| + |reply|
    ensures next.toolCallsMade[..|st.toolCallsMade|] == st.toolCallsMade
    ensures forall k | 0 <= k < |reply| ::
              next.toolCallsMade[|st.toolCallsMade| + k] == ToolRecord(CallName(reply[k]), next.iterations)
    ensures next == st.(messages := next.messages, iterations := next.iterations, toolCallsMade := next.toolCallsMade)
  {
    var iterations := st.iterations + 1;
    var toolCallsMade := st.toolCallsMade;
    if |reply| > 0 {
      for i := 0 to |reply|
        invariant |toolCallsMade| == |st.toolCallsMade| + i
        invariant toolCallsMade[..|st.toolCallsMade|] == st.toolCallsMade
        invariant forall k | 0 <= k < i ::
                    toolCallsMade[|st.toolCallsMade| + k] == ToolRecord(CallName(reply[k]), iterations)
      {
        toolCallsMade := toolCallsMade + [ToolRecord(reply[i].name.GetOr("unknown"), iterations)];
      }
    }
    next := st.(messages := st.messages + [Ai(reply)], iterations := iterations, toolCallsMade := toolCallsMade);
  }

  datatype Route = ToTools | End

  /** The last message is a model reply that asks for at least one tool. */
  predicate WantsTools(messages: seq<Message>)
  {
    |messages| > 0 && messages[|messages| - 1].Ai? && |messages[|messages| - 1].toolCalls| > 0
  }

  /** `should_continue`: the iteration cap wins over pending tool calls;
      under the cap the agent goes to the tools exactly when the last reply
      asked for some. The last message must exist when the cap is not
      reached. */
  function ShouldContinue(st: State): (r: Route)
    requires st.iterations >= st.maxIterations || st.messages != []
    ensures st.iterations >= st.maxIterations ==> r == End
    ensures r == ToTools <==> st.iterations < st.maxIterations && WantsTools(st.messages)
  {
    if st.iterations >= st.maxIterations then End
    else
      var last := st.messages[|st.messages| - 1];
      if last.Ai? && |last.toolCalls| > 0 then ToTools else End
  }

  /** The tool node answers every call of the last reply in the message
      history. The tools receive the schedule as an argument chosen by the
      model, so the state's own schedule is not touched. */
  function ToolsNode(st: State): (next: State)
    requires WantsTools(st.messages)
    ensures st.messages <= next.messages
    ensures |next.messages| == |st.messages| + |st.messages[|st.messages| - 1].toolCalls|
    ensures next == st.(messages := next.messages)
  {
    var calls := st.messages[|st.messages| - 1].toolCalls;
    st.(messages := st.messages + seq(|calls|, k requires 0 <= k < |calls| => ToolAnswer(CallName(calls[k]))))
  }

  // ---------------------------------------------------------------------
  // The planner/tools loop
  // ---------------------------------------------------------------------

  function Max(a: int, b: int): int {
    if a < b then b else a
  }

  /** `recursion_limit` passed to the graph run. */
  function RecursionLimit(maxIterations: int): int {
    maxIterations * 2 + 20
  }

  /** The graph `START -> planner -> (tools -> planner | END)` with the model
      as the oracle `llm`. The loop makes at least one planner call and no
      more than the remaining iteration budget allows, the counter rises
      by the number of planner calls, the node runs alternate (one tools
      run between planner runs), and the schedule, the status and the other
      inputs are those of the initial state. */
  method RunAgent(init: State, llm: State -> seq<ToolCall>) returns (final: State, plannerCalls: nat, steps: nat)
    ensures 1 <= plannerCalls <= Max(1, init.maxIterations - init.iterations)
    ensures final.iterations == init.iterations + plannerCalls
    ensures steps == 2 * plannerCalls - 1
    ensures init.iterations == 0 ==> (steps < RecursionLimit(init.maxIterations) <==> init.maxIterations >= -9)
    ensures final.schedule == init.schedule && final.immutableSlots == init.immutableSlots
    ensures final.completionStatus == init.completionStatus && final.keyDecisions == init.keyDecisions
    ensures final.maxIterations == init.maxIterations
    ensures init.toolCallsMade <= final.toolCallsMade
    ensures init.messages <= final.messages
    ensures final.messages != [] && ShouldContinue(final) == End
  {
    final := AgentPlanner(init, llm(init));
    plannerCalls := 1;
    steps := 1;
    while ShouldContinue(final) == ToTools
      invariant 1 <= plannerCalls <= Max(1, init.maxIterations - init.iterations)
      invariant final.iterations == init.iterations + plannerCalls
      invariant steps == 2 * plannerCalls - 1
      invariant final.messages != []
      invariant final == init.(messages := final.messages, iterations := final.iterations, toolCallsMade := final.toolCallsMade)
      invariant init.toolCallsMade <= final.toolCallsMade
      invariant init.messages <= final.messages
      decreases init.maxIterations - final.iterations
    {
      var answered := ToolsNode(final);
      final := AgentPlanner(answered, llm(answered));
      plannerCalls := plannerCalls + 1;
      steps := steps + 2;
    }
  }

  // ---------------------------------------------------------------------
  // Response assembly
  // ---------------------------------------------------------------------

  /** Decimal rendering of a natural number. */
  function NatToString(n: nat): (s: string)
    ensures |s| > 0
    decreases n
  {
    var digit := ['0', '1', '2', '3', '4', '5', '6', '7', '8', '9'][n % 10];
    if n < 10 then [digit] else NatToString(n / 10) + [digit]
  }

  datatype ReasoningSummary = ReasoningSummary(
    totalIterations: int,
    keyDecisions: seq<string>,
    constraintsApplied: seq<string>,
    completionStatus: Status,
    unfilledSlotsCount: int,
    totalToolCalls: int)

  /** The response: `filledSlots` is the count quoted in the overview. */
  datatype Response = Response(
    filledSlots: nat,
    windowDays: int,
    channelName: string,
    summary: ReasoningSummary,
    weeklyPlan: seq<string>,
    dailySlots: seq<Slot>)

  /** The last ten key decisions, or the two default lines when there are
      none. */
  function KeyDecisions(decisions: seq<string>, filled: nat): (r: seq<string>)
    ensures decisions != [] ==> |r| == if |decisions| < 10 then |decisions| else 10
    ensures decisions != [] ==> r == decisions[|decisions| - |r|..]
    ensures decisions == [] ==> r == ["Agent ran with basic tools", "Filled " + NatToString(filled) + " time slots"]
  {
    if decisions != [] then
      (if |decisions| <= 10 then decisions else decisions[|decisions| - 10..])
    else ["Agent ran with basic tools", "Filled " + NatToString(filled) + " time slots"]
  }

  /** The flattening loop of `build_schedule_with_agent`: every day's list
      in the dict's key order, slot after slot. */
  method CollectSlots(sd: ScheduleDict) returns (all: seq<Slot>)
    ensures all == Flatten(sd)
  {
    all := [];
    for i := 0 to |sd.order|
      invariant all == FlattenDays(sd.order[..i], sd)
    {
      var daySlots := sd.Get(sd.order[i]);
      ghost var before := all;
      for j := 0 to |daySlots|
        invariant all == before + daySlots[..j]
      {
        all := all + [daySlots[j]];
      }
      assert daySlots[..|daySlots|] == daySlots;
      assert sd.order[..i + 1][..i] == sd.order[..i];
    }
    assert sd.order[..|sd.order|] == sd.order;
  }

  /** Response assembly of `build_schedule_with_agent` from the final
      state: the flattened slots sorted by start, the filled count, and a
      summary whose status is always "partial". */
  method BuildResponse(req: Request, final: State) returns (resp: Response)
    ensures resp.dailySlots == SortByStart(Flatten(final.schedule))
    ensures resp.filledSlots == SlotCount(final.schedule)
    ensures resp.summary.completionStatus == Partial
    ensures resp.summary.totalIterations == final.iterations
    ensures resp.summary.totalToolCalls == |final.toolCallsMade|
    ensures resp.summary.keyDecisions == KeyDecisions(final.keyDecisions, resp.filledSlots)
    ensures Truthy(req.userInstructions) ==> resp.summary.constraintsApplied == [req.userInstructions.value]
    ensures !Truthy(req.userInstructions) ==> resp.summary.constraintsApplied == []
    ensures resp.summary.unfilledSlotsCount == 0 && resp.weeklyPlan == []
  {
    var filled := SlotCount(final.schedule);
    var daily := CollectSlots(final.schedule);
    daily := SortByStart(daily);
    var constraints := if Truthy(req.userInstructions) then [req.userInstructions.value] else [];
    var summary := ReasoningSummary(
      final.iterations, KeyDecisions(final.keyDecisions, filled), constraints,
      Partial, 0, |final.toolCallsMade|);
    resp := Response(filled, req.windowDays, req.channelName, summary, [], daily);
  }

  /** The response's slot list is the schedule's slots, sorted by start,
      with nothing added or dropped, equal slots starting together in their
      stored order, and as many of them as the filled count. */
  lemma ResponseSlotsSortedPermutation(sd: ScheduleDict)
    ensures var out := SortByStart(Flatten(sd));
            && SortedByStart(out)
            && multiset(out) == multiset(Flatten(sd))
            && |out| == SlotCount(sd)
            && forall k :: StartingAt(out, k) == StartingAt(Flatten(sd), k)
  {
    SortByStartSortedPermutation(Flatten(sd));
    FlattenDaysCount(sd.order, sd);
    forall k {
      SortByStartStable(Flatten(sd), k);
    }
  }

  /** The error the graph run raises when its node runs reach the
      recursion limit. */
  datatype AgentError = RecursionLimitReached

  /** `build_schedule_with_agent`: initial state, agent loop, response. The
      graph run fails when the node runs reach the recursion limit, which
      happens exactly when the iteration cap is -10 or less (the limit is
      then 0 or below); otherwise the response holds the request's slots. */
  method BuildScheduleWithAgent(req: Request, llm: State -> seq<ToolCall>)
    returns (r: Result<Response, AgentError>)
    ensures r.Failure? <==> req.maxIterations <= -10
    ensures r.Success? ==> SortedByStart(r.value.dailySlots)
    ensures r.Success? ==> multiset(r.value.dailySlots) == multiset(req.dailySlots)
    ensures r.Success? ==> r.value.filledSlots == |req.dailySlots|
    ensures r.Success? ==> r.value.summary.completionStatus == Partial
    ensures r.Success? ==> 1 <= r.value.summary.totalIterations <= Max(1, req.maxIterations)
  {
    var st := InitializeState(req);
    var final, plannerCalls, steps := RunAgent(st, llm);
    if steps >= RecursionLimit(req.maxIterations) {
      return Failure(RecursionLimitReached);
    }
    var resp := BuildResponse(req, final);
    ResponseSlotsSortedPermutation(final.schedule);
    GroupByDateKeepsSlots(req.dailySlots);
    r := Success(resp);
  }
}
