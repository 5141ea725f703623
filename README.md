# tunabrain scheduling core in Dafny

tunabrain is a service that helps run TV-style channels over a media
library. A language model categorizes media, vets the tag taxonomy and
builds multi-day broadcast schedules. This project models the
deterministic code around those model calls and proves properties of it:

- **Schedule store and gap detector** (`scheduling_tools.py`):
  - `identify_schedule_gaps` walks the days of a date range. For each day it
    reports the free stretches of the broadcast window (06:00 to 02:00 the
    next day). Each stretch is cut at the caller's preferred times and
    labelled weekday/weekend plus a time-of-day bucket.
  - `fill_time_slot` adds one slot to a day. It refuses a slot that overlaps
    a slot already on that day, and otherwise appends the slot and re-sorts
    the day by start time.
- **Scheduling agent** (`scheduling_agent.py`):
  - the initial state built from a request;
  - the planner's iteration counter and tool-call log;
  - the routing rule;
  - the planner/tools loop;
  - the assembly of the response: flatten, sort, count, summary.
- **Tag governance** (`tag_governance.py`): `triage_tags` and `audit_tags`
  send tags to a reviewer in batches of 75 and keep the first answer per tag.
- **Media categorization** (`categorization.py`): one model request per
  category. A fallback applies when the model fails or returns no values,
  and the requested category name always overrides the one the model returns.

Modules:

- `Wrappers`: `Option` and `Result`.
- `Slots`: time and calendar, slots, the overlap test, the stable sort by
  start, and the insertion-ordered dict of day lists.
- `Store`: `fill_time_slot`, as a `Schedule` class whose method updates the
  dict in place.
- `Gaps`: gap detection and gap entries.
- `Agent`: the agent state, the nodes and the loop, and the response.
- `Tags`: the batched first-wins review.
- `Categorization`: fallbacks and `categorize_media`.

Conventions:

- Time is an absolute count of minutes, and a date is a day number. So
  `Midnight(d) = d * 1440`, and an `HH:MM` time of day is a count of minutes
  after midnight.
- Every language-model step is a parameter of the operation: a function
  from its input to its parsed output or a failure.
- The Wikipedia lookup is an input value that says what the lookup returned
  or that it raised.

## Model

| member | source | states |
|---|---|---|
| Slots.DateOf | src/tunabrain/agents/scheduling_agent.py:89 | the day key of a datetime is the date whose midnight is at or before it and less than a day before it |
| Slots.WindowStart | src/tunabrain/agents/scheduling_tools.py:73 | the broadcast window opens 6 hours after the day's midnight |
| Slots.WindowEnd | src/tunabrain/agents/scheduling_tools.py:74 | the broadcast window closes 20 hours after it opens, which is 02:00 of the next date |
| Slots.ClockRoundTrip | src/tunabrain/agents/scheduling_tools.py:197-198 | the rendered hour and minute are in range and, with the date key, give the datetime back |
| Slots.ClockAt | src/tunabrain/agents/scheduling_tools.py:263-264 | an `HH:MM` time placed on a date falls on that date and renders back as the same hour and minute |
| Slots.InsertByStartPermutation | src/tunabrain/agents/scheduling_tools.py:292 | inserting a slot into a day adds exactly that slot to the day's multiset |
| Slots.SortByStartSortedPermutation | src/tunabrain/agents/scheduling_tools.py:292 | sorting by start yields an ascending list that is a permutation of its input |
| Slots.SortByStartStable | src/tunabrain/agents/scheduling_agent.py:288 | the sort is stable: slots with equal starts keep their relative order |
| Slots.SortByStartNoOverlap | src/tunabrain/agents/scheduling_tools.py:289-292 | re-sorting a day keeps it free of overlaps |
| Slots.ScheduleDict.Put | src/tunabrain/agents/scheduling_tools.py:258-260 | storing a day list changes that key only; a new key goes to the end of the key order, an existing key keeps its place |
| Slots.PutValid | src/tunabrain/agents/scheduling_tools.py:258-260 | storing a day keeps the keys distinct and in step with the key order |
| Slots.PutAddsOneSlot | src/tunabrain/agents/scheduling_tools.py:289-292 | a day that gained one slot makes the whole schedule gain exactly that slot, and the slot count rise by one |
| Slots.FlattenDaysMembers | src/tunabrain/agents/scheduling_agent.py:273-285 | a slot is in the flattened list exactly when it is in the list of one of the dates |
| Slots.FlattenDaysCount | src/tunabrain/agents/scheduling_agent.py:273-285 | the flattened list is as long as the day lists together |
| Slots.SlotCountFlatten | src/tunabrain/agents/scheduling_agent.py:265-285 | the filled-slot count equals the length of the flattened list |
| Store.NewSlot | src/tunabrain/agents/scheduling_tools.py:205-287 | the new slot runs from the start time to the end time on the requested date and stores the given media id; an omitted strategy becomes "random", omitted filters and notes become empty lists, and given ones are stored as given |
| Store.NewSlotClock | src/tunabrain/agents/scheduling_tools.py:279-282 | the new slot's start and end fall on the requested date at the requested hours and minutes |
| Store.FirstConflict | src/tunabrain/agents/scheduling_tools.py:266-277 | the scan reports the first existing slot that overlaps the new one, and reports none exactly when no slot overlaps |
| Store.Schedule.constructor | src/tunabrain/agents/scheduling_tools.py:235 | a new schedule is the empty dict |
| Store.Schedule.FillTimeSlot | src/tunabrain/agents/scheduling_tools.py:205-299 | the in-place update follows `Fill`: on success the object holds the returned dict, and on an overlap the object is unchanged and the conflicting slot is reported |
| Store.FillRefused | src/tunabrain/agents/scheduling_tools.py:266-277 | the first overlapping slot on the day is the one the refusal reports |
| Store.FillAccepted | src/tunabrain/agents/scheduling_tools.py:279-292 | without an overlap the result is the day with the new slot appended and re-sorted, and the dict stays well formed |
| Store.FillRejectsExactlyOverlaps | src/tunabrain/agents/scheduling_tools.py:266-277 | a fill is refused if and only if some slot on that day overlaps the new one, and the reported slot is one of them |
| Store.FillUpdatesOneDay | src/tunabrain/agents/scheduling_tools.py:258-292 | a successful fill leaves that day sorted with exactly the new slot added, leaves every other day alone, and appends the date key only when it is new |
| Store.FillTwiceRefused | src/tunabrain/agents/scheduling_tools.py:266-292 | filling the same non-empty slot again right after a success is refused |
| Store.FillStoresRequestedSlot | src/tunabrain/agents/scheduling_tools.py:279-292 | after a successful fill the day holds a slot with exactly the requested times, media id, strategy, filters and notes, with omitted ones at their defaults |
| Store.FillKeepsNoOverlap | src/tunabrain/agents/scheduling_tools.py:266-292 | a day without overlaps stays without overlaps after a successful fill |
| Store.FillAddsOneSlot | src/tunabrain/agents/scheduling_tools.py:279-292 | a successful fill adds exactly the new slot to the whole schedule and raises the slot count by one |
| Gaps.BoundaryDay | src/tunabrain/agents/scheduling_tools.py:152-158 | a preferred time lands on the current date, or on the next date when it falls before the gap start |
| Gaps.Cuts | src/tunabrain/agents/scheduling_tools.py:152-167 | the cut points taken from the preferred times lie strictly inside the gap, at most one per preferred time |
| Gaps.SuggestedSlotsFollowCuts | src/tunabrain/agents/scheduling_tools.py:147-178 | the suggested sub-slots run from cut to cut, start at the gap start, end at the gap end and meet end to start; without preferred times there is one sub-slot for the whole gap; with ascending cuts none is empty |
| Gaps.ContextTextLabels | src/tunabrain/agents/scheduling_tools.py:180-193 | the label says Weekend exactly on Saturday and Sunday, and names morning, afternoon, evening or late night exactly for the hour ranges before 12, 12 to 16, 17 to 21, and 22 onwards |
| Gaps.CreateGapEntry | src/tunabrain/agents/scheduling_tools.py:137-202 | the loop over preferred times builds the entry the reference definition describes |
| Gaps.GapEntriesFields | src/tunabrain/agents/scheduling_tools.py:195-202 | each entry carries the day key, its interval's start and end, and their difference in minutes as the duration |
| Gaps.InnerGapsMembers | src/tunabrain/agents/scheduling_tools.py:102-116 | a gap between slots is reported if and only if two neighbouring sorted slots leave free time between the first one's end and the next one's start |
| Gaps.InnerGapsSource | src/tunabrain/agents/scheduling_tools.py:102-116 | every reported inner gap comes from a pair of neighbours with free time between them |
| Gaps.InnerGapsComplete | src/tunabrain/agents/scheduling_tools.py:102-116 | every pair of neighbours with free time between them yields a reported inner gap |
| Gaps.InnerGapsBetween | src/tunabrain/agents/scheduling_tools.py:102-116 | for chained slots an inner gap lies between the first end and the last start and shares no minute with any slot |
| Gaps.InnerGapsOrdered | src/tunabrain/agents/scheduling_tools.py:102-116 | for chained slots the inner gaps come out in time order, each ending before the next starts |
| Gaps.InnerGapsCover | src/tunabrain/agents/scheduling_tools.py:102-116 | for chained slots each minute from the first start to the last end is in a slot or in an inner gap |
| Gaps.FreeIntervalsCount | src/tunabrain/agents/scheduling_tools.py:77-129 | a day yields at most one gap more than it has slots, no empty gap, and one whole-window gap when it has no slots |
| Gaps.FreeIntervalsTile | src/tunabrain/agents/scheduling_tools.py:77-129 | for chained slots inside the window the gaps lie inside the window, are in time order, avoid every slot, and with the slots cover every minute of the window |
| Gaps.DetectInnerGaps | src/tunabrain/agents/scheduling_tools.py:102-116 | the loop over neighbouring slots produces the entries of the inner gaps in order |
| Gaps.DetectDayGaps | src/tunabrain/agents/scheduling_tools.py:77-129 | one day's branch produces the entries for the gap before the first slot, the inner gaps and the gap after the last slot, or one whole-window entry |
| Gaps.IdentifyScheduleGaps | src/tunabrain/agents/scheduling_tools.py:14-134 | the day loop produces each day's gaps for every date from the start to before the end, day after day |
| Gaps.ScheduleGapsDates | src/tunabrain/agents/scheduling_tools.py:57-131 | every reported gap is dated on a day of the range |
| Gaps.ScheduleGapsDatesAscend | src/tunabrain/agents/scheduling_tools.py:57-131 | the reported gaps come in ascending date order |
| Gaps.DayGapsFields | src/tunabrain/agents/scheduling_tools.py:66-129 | a day's entries correspond one to one, in order, to the free stretches of that day's sorted slots |
| Gaps.DayGapsWellFormed | src/tunabrain/agents/scheduling_tools.py:77-129 | every gap of a day is non-empty, its duration is its length, and it carries that day's key |
| Gaps.EmptyDayGaps | src/tunabrain/agents/scheduling_tools.py:77-87 | a day with no slots yields one 1200-minute gap from 06:00 to 02:00 |
| Gaps.WindowClock | src/tunabrain/agents/scheduling_tools.py:61-63 | the window renders as 06:00 to 02:00 |
| Gaps.EmptyScheduleOneGapPerDay | src/tunabrain/agents/scheduling_tools.py:57-134 | an empty schedule over n days yields exactly n gaps, the i-th being day i's whole window |
| Gaps.ProperDaySorted | src/tunabrain/agents/scheduling_tools.py:70 | sorting a day without overlaps gives a chained list with the same slots |
| Gaps.DayGapsInWindow | src/tunabrain/agents/scheduling_tools.py:66-129 | when the day's slots do not overlap and lie inside the window, every gap lies inside the window |
| Gaps.DayGapsOrdered | src/tunabrain/agents/scheduling_tools.py:66-129 | for such a day the gaps come in time order |
| Gaps.DayGapsAvoidSlots | src/tunabrain/agents/scheduling_tools.py:66-129 | for such a day no gap shares a minute with a slot of the day |
| Gaps.DayGapsCoverWindow | src/tunabrain/agents/scheduling_tools.py:66-129 | for such a day every minute of the window is in a gap or in a slot |
| Gaps.DayGapsTileWindow | src/tunabrain/agents/scheduling_tools.py:66-129 | for such a day the gaps and the slots tile the window: inside it, in order, disjoint, and covering |
| Agent.GroupByDateSnoc | src/tunabrain/agents/scheduling_agent.py:88-99 | one more slot is appended to the list of its own start date |
| Agent.SlotIdsSnoc | src/tunabrain/agents/scheduling_agent.py:100 | one more slot adds its date-and-start id to the immutable set |
| Agent.OnDate | src/tunabrain/agents/scheduling_agent.py:88-99 | the slots filed under a date are request slots that start on that date |
| Agent.FileSlots | src/tunabrain/agents/scheduling_agent.py:85-100 | the loop files every request slot, in order, under its own start date and adds its date-and-start id to the immutable set |
| Agent.InitializeState | src/tunabrain/agents/scheduling_agent.py:77-139 | the loop files every request slot under its start date and marks its id immutable; the end date defaults to start plus window; the channel, media, instructions, window, start, preferred times, cost tier, iteration cap and quality threshold are copied from the request; constraints and both analysis caches start empty; iterations and confidence start at zero, the status is in progress, and the log and decisions are empty |
| Agent.GroupByDateValid | src/tunabrain/agents/scheduling_agent.py:85-99 | the grouped schedule is a well-formed dict |
| Agent.GroupByDateFilesByStart | src/tunabrain/agents/scheduling_agent.py:85-99 | each date holds exactly the request slots that start on it, in request order |
| Agent.GroupByDateKeepsSlots | src/tunabrain/agents/scheduling_agent.py:85-99 | grouping neither drops nor adds slots, so the count equals the number of request slots |
| Agent.AgentPlanner | src/tunabrain/agents/scheduling_agent.py:142-184 | the counter goes up by one, the reply is appended, and one log record per requested call, named "unknown" when nameless and tagged with the new counter, is appended after the old log; nothing else changes |
| Agent.ShouldContinue | src/tunabrain/agents/scheduling_agent.py:187-202 | the cap ends the run even when tools are requested; under the cap the run goes to the tools if and only if the last reply requested some |
| Agent.ToolsNode | src/tunabrain/agents/scheduling_agent.py:209-218 | the tools node appends one answer per requested call and changes nothing but the messages |
| Agent.RunAgent | src/tunabrain/agents/scheduling_agent.py:205-257 | the loop calls the planner at least once and at most the larger of 1 and the remaining budget; starting from zero iterations, its node runs stay under the recursion limit exactly when the cap is -9 or more; it ends with the routing rule saying end; schedule, immutable set, status and decisions are unchanged and messages and log only grow |
| Agent.KeyDecisions | src/tunabrain/agents/scheduling_agent.py:295-300 | the summary keeps the last ten decisions, or gives the two default lines naming the filled count when there are none |
| Agent.CollectSlots | src/tunabrain/agents/scheduling_agent.py:272-285 | the nested loop visits the days in key order and yields their slots one after another |
| Agent.BuildResponse | src/tunabrain/agents/scheduling_agent.py:264-316 | the response lists the flattened slots sorted by start and the filled count; the summary has status partial, the iteration and tool-call counts, the key decisions, and the instructions as a constraint only when non-empty |
| Agent.ResponseSlotsSortedPermutation | src/tunabrain/agents/scheduling_agent.py:272-288 | the response's slots are sorted, are exactly the schedule's slots, number the filled count, and keep stored order among equal starts |
| Agent.BuildScheduleWithAgent | src/tunabrain/agents/scheduling_agent.py:236-316 | the run fails with the recursion error exactly when the iteration cap is -10 or less, since the limit is then 0 or below; otherwise, whatever the model does, the response holds exactly the request's slots sorted by start, counts them as filled, reports status partial, and reports between 1 and the larger of 1 and the iteration cap planner iterations |
| Tags.BatchesPartition | src/tunabrain/chains/tag_governance.py:110-112 | the batches joined give the input back, each holds 1 to 75 tags, and there are n/75 of them rounded up |
| Tags.BatchesAt | src/tunabrain/chains/tag_governance.py:111-112 | from any offset the next batch is the slice of up to 75 tags there, followed by the batches of the rest |
| Tags.MergeAppend | src/tunabrain/chains/tag_governance.py:109-116 | merging batch after batch is the same as merging their concatenation |
| Tags.HasKeySnoc | src/tunabrain/chains/tag_governance.py:115 | a tag is present after an append if and only if it was before or the appended answer carries it |
| Tags.MergeIsFirstOccurrences | src/tunabrain/chains/tag_governance.py:109-116 | merging into an empty list keeps exactly the answers that are first with their tag |
| Tags.FirstOccurrencesKeys | src/tunabrain/chains/tag_governance.py:113-116 | the merged list has an answer for a tag if and only if some answer carried that tag |
| Tags.FirstOccurrencesDistinct | src/tunabrain/chains/tag_governance.py:113-116 | the merged list has one answer per tag, all taken from the answers, and is no longer than them |
| Tags.FirstOccurrencesFirstWins | src/tunabrain/chains/tag_governance.py:113-116 | each kept answer is the first answer with its tag |
| Tags.AnswersCons | src/tunabrain/chains/tag_governance.py:111-113 | a failed batch fails the whole review, and a reviewed batch puts its answers before those of the later batches |
| Tags.ReviewInBatches | src/tunabrain/chains/tag_governance.py:109-116 | the loop returns the first-wins merge of all batch answers, or the failure; empty input returns an empty list without a review; on success every batch was reviewed once |
| Tags.TriageTags | src/tunabrain/chains/tag_governance.py:26-119 | triage returns the first decision per tag over batches of 75, an empty list for no tags, or the parse failure |
| Tags.AuditTags | src/tunabrain/chains/tag_governance.py:131-217 | the audit returns the first deletion per tag over batches of 75, an empty list for no tags, or the parse failure |
| Tags.ReviewedProperties | src/tunabrain/chains/tag_governance.py:109-116 | the result fails exactly when a batch fails, and otherwise holds one answer per tag, only answers from the batches, and an answer for every tag that any batch answered |
| Tags.FailedBatchFails | src/tunabrain/chains/tag_governance.py:95-102 | one batch whose output does not parse fails the whole call |
| Categorization.FallbackDimension | src/tunabrain/chains/categorization.py:48-54 | the fallback carries the requested name and one note, and holds the first candidate value exactly when there are candidates |
| Categorization.FallbackDimensions | src/tunabrain/chains/categorization.py:57-58 | one fallback per category, in order, under its name, non-empty when the category has candidates |
| Categorization.CategorizeSingle | src/tunabrain/chains/categorization.py:123-129 | a parsed selection comes back with its values and notes under the requested name; parser and other failures are passed on |
| Categorization.CategorizeSingleSafe | src/tunabrain/chains/categorization.py:132-168 | under every model outcome the selection has the requested name and, when there are candidates, a value; the model's selection is kept exactly when it parsed with values, and the fallback is used otherwise |
| Categorization.WikipediaSummary | src/tunabrain/chains/categorization.py:198-211 | the summary is the lookup's text when it returned a non-empty one and the fixed sentence otherwise, including when it raised |
| Categorization.Dimensions | src/tunabrain/chains/categorization.py:213-231 | one selection per category, in category order, under the category's name, non-empty when there are candidates, and the fallback wherever the model failed |
| Categorization.DimensionsSnoc | src/tunabrain/chains/categorization.py:213-231 | one more category adds its own safe selection at the end |
| Categorization.CategorizeMedia | src/tunabrain/chains/categorization.py:171-246 | the result has the dimensions for every category under the shared summary; it has no channel mappings without channels, the mapper's mappings with channels, and fails only when the mapper fails on a non-empty channel list (the mapper is a parameter; see "Left out" for the repository's own mapper) |

## Left out

- Date and time parsing and printing (ISO strings, `HH:MM` strings, `%Y-%m-%d` keys and `strftime`) are not modelled as text. Datetimes are integer minutes, and `Clock` gives the rendered hour and minute. Malformed strings, seconds, time zones and daylight-saving shifts are not modelled.
- Slots are sorted by their start datetime. The source sorts by the ISO start string, which gives the same order for the uniformly formatted strings the code produces.
- Durations are whole minutes. The source converts a float number of seconds.
- Gaps.IdentifyScheduleGaps: the day of the week of the start date is an input (`startWeekday`), because the calendar is not modelled. The immutable slot ids are accepted and unused, as in the source.
- A missing preferred-times list is treated as an empty one, as the source's truthiness test does.
- Gaps.DayGapsTileWindow and the other window lemmas assume the day is free of overlaps and its slots lie inside its window. The source files a slot under the date of its own start, so a slot after midnight and before 02:00 sits in the next day's list. The source also does not check that a slot ends after it starts.
- Store.NewSlot: an omitted strategy is `None`, which gives "random". A strategy explicitly passed as Python `None`, which the source would store as is, is not modelled.
- Store.NewSlot and Store.Schedule.FillTimeSlot do not check that the end time is after the start time, and neither does the source. FillTwiceRefused assumes it does.
- The language model, its prompts, output parsers, tool binding and the system-prompt text are oracles or are left out. This includes the planner's model call, the tag reviewers and the per-category classifier.
- The graph runtime is modelled by the loop in `Agent.RunAgent`. The runtime raises its recursion error during the run. The model checks the node-run count against the limit after the loop. The outcome is the same, because the model's oracle has no side effects. The runtime's convention is taken to be that a run fails once its node runs reach the limit. Its exact off-by-one in counting steps is not modelled.
- Agent.ToolsNode records one answer per requested call and does not run the tools. The tools receive a schedule chosen by the model as an argument, so the state's own schedule is not touched. The tools themselves are modelled in `Store` and `Gaps`.
- Agent.BuildResponse: the overview sentence, quality score and cost note are fixed text or placeholders and are not modelled. The filled count, window days and channel name are kept.
- `asyncio.gather` over categories is modelled as a sequential map in category order. This is the order gather returns its results in.
- Categorization.CategorizeMedia: the channel mapper and the Wikipedia lookup are parameters, so the model describes the documented behaviour and not the repository as written. Three facts of the repository are not captured:
  - `map_media_to_channels` (src/tunabrain/chains/channel_mapping.py:8-15) only raises `NotImplementedError`.
  - That function takes only the media item and the channels, but `categorize_media` (categorization.py:236-241) also passes `debug` and `llm`. So in the repository every non-empty channel list makes `categorize_media` raise.
  - categorization.py:22 imports `WikipediaLookup`, and lines 199-207 call its `lookup_async`. But src/tunabrain/tools/wikipedia.py defines only `WikipediaLookupTool`, so the module as written fails at import.
- The Wikipedia lookup is an input value that says whether it returned a summary, returned none, or raised.
- Categorization.CategorizeSingle overwrites the name of the parsed object in place. This is modelled as a value with the name replaced.
- Agent.InitializeState: the constraints record and the media-analysis cache hold untyped dicts in the source. The model gives them string-keyed, string-valued maps, and nothing in the modelled core fills them.
- The quality threshold and the confidence score are `real` values. Float rounding is not modelled.
- Logging, debug flags, the target limit in the triage prompt, and the media fields that only feed the prompts are not modelled.
- The API models, routes, configuration, the remaining chains and the tools package are not part of this model.
