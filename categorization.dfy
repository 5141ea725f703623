/** Media categorization: every requested scheduling dimension is sent to the
    language model on its own, and whatever the model does, the answer comes
    back under the requested name and, when the category has candidate
    values, with at least one value. The model with its output parser, the
    Wikipedia lookup and the channel mapper are oracles. */
module Categorization {
  import opened Wrappers

  datatype CategoryDefinition = CategoryDefinition(description: string, values: seq<string>)

  datatype DimensionSelection = DimensionSelection(dimension: string, values: seq<string>, notes: seq<string>)

  datatype Channel = Channel(name: string, description: Option<string>)

  datatype ChannelMapping = ChannelMapping(channelName: string, reasons: seq<string>)

  datatype CategorizationResult = CategorizationResult(
    dimensions: seq<DimensionSelection>,
    channelMappings: seq<ChannelMapping>)

  /** The categories dict, in its key order. */
  type Categories = seq<(string, CategoryDefinition)>

  /** What the model call and the parser produce for one category. */
  datatype ModelOutcome =
    | Parsed(selection: DimensionSelection)
    | ParseError                               // `OutputParserException`
    | OtherError                               // any other exception

  /** What the Wikipedia lookup produces. */
  datatype Lookup = Returned(summary: Option<string>) | Raised

  const FallbackNote: string := "Default selection used because structured LLM output was unavailable."

  const NoSummary: string := "Wikipedia summary not available."

  // ---------------------------------------------------------------------
  // Fallbacks
  // ---------------------------------------------------------------------

  /** `_fallback_dimension`: the first candidate value, if any, under the
      requested name, with one explanatory note. */
  function FallbackDimension(name: string, defn: CategoryDefinition): (d: DimensionSelection)
    ensures d.dimension == name && d.notes == [FallbackNote]
    ensures |d.values| <= 1 && forall v | v in d.values :: v in defn.values
    ensures defn.values != [] <==> d.values != []
    ensures defn.values != [] ==> d.values[0] == defn.values[0]
  {
    DimensionSelection(name, if defn.values != [] then [defn.values[0]] else [], [FallbackNote])
  }

  /** `_fallback_dimensions`: one fallback per category, in order. */
  function FallbackDimensions(categories: Categories): (r: seq<DimensionSelection>)
    ensures |r| == |categories|
    ensures forall i | 0 <= i < |r| :: r[i].dimension == categories[i].0
    ensures forall i | 0 <= i < |r| :: categories[i].1.values != [] ==> r[i].values != []
  {
    seq(|categories|, i requires 0 <= i < |categories| => FallbackDimension(categories[i].0, categories[i].1))
  }

  // ---------------------------------------------------------------------
  // One category
  // ---------------------------------------------------------------------

  /** `_categorize_single`: the parsed selection with its name overwritten
      by the requested category name; parser and other failures are passed
      on as failures. */
  function CategorizeSingle(name: string, outcome: ModelOutcome): (r: Result<DimensionSelection, ModelOutcome>)
    ensures r.Success? <==> outcome.Parsed?
    ensures r.Success? ==> r.value.dimension == name
    ensures r.Success? ==> r.value.values == outcome.selection.values && r.value.notes == outcome.selection.notes
    ensures r.Failure? ==> r.error == outcome
  {
    match outcome
    case Parsed(selection) => Success(selection.(dimension := name))
    case ParseError => Failure(outcome)
    case OtherError => Failure(outcome)
  }

  /** `_categorize_single_safe`: whatever the model does, the selection
      carries the requested name and, when the category has candidates, at
      least one value; the model's selection is kept exactly when it parsed
      with values, and the fallback is used in every other case. */
  function CategorizeSingleSafe(name: string, defn: CategoryDefinition, outcome: ModelOutcome): (d: DimensionSelection)
    ensures d.dimension == name
    ensures defn.values != [] ==> d.values != []
    ensures outcome.Parsed? && outcome.selection.values != [] ==> d == outcome.selection.(dimension := name)
    ensures !(outcome.Parsed? && outcome.selection.values != []) ==> d == FallbackDimension(name, defn)
  {
    match CategorizeSingle(name, outcome)
    case Success(selection) =>
      if selection.values == [] then FallbackDimension(name, defn) else selection
    case Failure(_) => FallbackDimension(name, defn)
  }

  // ---------------------------------------------------------------------
  // categorize_media
  // ---------------------------------------------------------------------

  /** The summary handed to every category request: the lookup's text when
      it returned a non-empty one, the fixed fallback sentence otherwise. */
  function WikipediaSummary(lookup: Lookup): (s: string)
    ensures lookup.Returned? && lookup.summary.Some? && lookup.summary.value != "" ==> s == lookup.summary.value
    ensures !(lookup.Returned? && lookup.summary.Some? && lookup.summary.value != "") ==> s == NoSummary
  {
    match lookup
    case Returned(Some(text)) => if text != "" then text else NoSummary
    case Returned(None) => NoSummary
    case Raised => NoSummary
  }

  /** The dimensions assembled for `categories` with the model as the
      oracle `classify` (category name, definition, summary): one per
      category, in category order, under the category's name, non-empty
      whenever the category has candidates, and the fallback wherever the
      model failed; no categories give no dimensions. */
  function Dimensions(categories: Categories, classify: (string, CategoryDefinition, string) -> ModelOutcome,
                      summary: string): (dims: seq<DimensionSelection>)
    ensures |dims| == |categories|
    ensures forall i | 0 <= i < |dims| :: dims[i].dimension == categories[i].0
    ensures forall i | 0 <= i < |dims| :: categories[i].1.values != [] ==> dims[i].values != []
    ensures forall i | 0 <= i < |dims| ::
              !classify(categories[i].0, categories[i].1, summary).Parsed? ==>
                dims[i] == FallbackDimension(categories[i].0, categories[i].1)
  {
    var dims := seq(|categories|, i requires 0 <= i < |categories| =>
      CategorizeSingleSafe(categories[i].0, categories[i].1, classify(categories[i].0, categories[i].1, summary)));
    assert forall i | 0 <= i < |dims| ::
      dims[i] == CategorizeSingleSafe(categories[i].0, categories[i].1, classify(categories[i].0, categories[i].1, summary));
    dims
  }

  /** One more category adds its own selection at the end. */
  lemma DimensionsSnoc(categories: Categories, i: nat, classify: (string, CategoryDefinition, string) -> ModelOutcome,
                       summary: string)
    requires i < |categories|
    ensures Dimensions(categories[..i + 1], classify, summary) ==
            Dimensions(categories[..i], classify, summary) +
            [CategorizeSingleSafe(categories[i].0, categories[i].1, classify(categories[i].0, categories[i].1, summary))]
  {
    var a := Dimensions(categories[..i + 1], classify, summary);
    var b := Dimensions(categories[..i], classify, summary);
    assert forall k | 0 <= k < i :: categories[..i + 1][k] == categories[..i][k];
    assert forall k | 0 <= k < i :: a[k] == b[k];
  }

  /** `categorize_media`: looks up the summary, categorizes each category
      in turn (the concurrent gather preserves order), and asks the channel
      mapper only when channels were given; a mapper failure propagates as
      `None`. */
  method CategorizeMedia(
    categories: Categories, channels: Option<seq<Channel>>, lookup: Lookup,
    classify: (string, CategoryDefinition, string) -> ModelOutcome,
    mapChannels: seq<Channel> -> Option<seq<ChannelMapping>>)
    returns (r: Option<CategorizationResult>)
    ensures r.None? <==> channels.GetOr([]) != [] && mapChannels(channels.GetOr([])).None?
    ensures r.Some? ==> r.value.dimensions == Dimensions(categories, classify, WikipediaSummary(lookup))
    ensures r.Some? && channels.GetOr([]) == [] ==> r.value.channelMappings == []
    ensures r.Some? && channels.GetOr([]) != [] ==> r.value.channelMappings == mapChannels(channels.GetOr([])).value
  {
    var channelsList := channels.GetOr([]);
    var summary := NoSummary;
    match lookup {
      case Returned(Some(text)) =>
        if text != "" {
          summary := text;
        }
      case Returned(None) =>
      case Raised =>
    }
    assert summary == WikipediaSummary(lookup);
    var dimensions: seq<DimensionSelection> := [];
    if |categories| > 0 {
      for i := 0 to |categories|
        invariant dimensions == Dimensions(categories[..i], classify, summary)
      {
        var (name, defn) := categories[i];
        DimensionsSnoc(categories, i, classify, summary);
        dimensions := dimensions + [CategorizeSingleSafe(name, defn, classify(name, defn, summary))];
      }
      assert categories[..|categories|] == categories;
    }
    var channelMappings: seq<ChannelMapping> := [];
    if |channelsList| > 0 {
      var mapped := mapChannels(channelsList);
      if mapped.None? {
        return None;
      }
      channelMappings := mapped.value;
    }
    r := Some(CategorizationResult(dimensions, channelMappings));
  }
}
