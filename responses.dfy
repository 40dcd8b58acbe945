/**
 The reshaping `ElasticClient` applies to search responses before handing them to its callers
 (`_formatResponse`, `_mapMultiSearch` and `_mapAllHits` in lib/ElasticClient.js). Stored documents
 (`S`) and aggregation results (`A`) are JSON the client passes through untouched, so they stay
 type parameters.
 */
module Responses {
  import opened Wrappers

  /** One search hit; of its fields only the stored document, `_source`, is read. */
  datatype Hit<+S> = Hit(source: S)

  /** The `hits` object of a response: the total number of matches and the returned hits. */
  datatype HitsBlock<+S> = HitsBlock(total: Option<int>, hits: seq<Hit<S>>)

  /** The `error` object of a failed sub-search; of its fields only `type` is read. */
  datatype ShardError = ShardError(errorType: string)

  /** A search response, or one sub-response of a multi-search. */
  datatype SearchResponse<+S, +A> = SearchResponse(
    error: Option<ShardError>,
    aggregations: Option<A>,
    hits: Option<HitsBlock<S>>,
    took: Option<int>)

  /** Why a multi-search entry carries no result: the sub-search's error type, or no hits. */
  datatype EntryError = ErrorType(errorType: string) | EmptyResponse

  /** What a multi-search reports for one sub-search. */
  datatype Entry<+S, +A> =
    | Failed(reason: EntryError, index: nat)
    | Aggregations(aggregations: A)
    | FirstSource(source: S)

  /** Whether the sub-response has at least one hit. */
  predicate HasHits<S, A>(r: SearchResponse<S, A>)
  {
    r.hits.Some? && |r.hits.value.hits| > 0
  }

  /** The entry for the sub-response `r` at position `index`. An error wins over aggregations,
      aggregations over hits; with none of them the entry is an "empty response" error. */
  function Classify<S, A>(r: SearchResponse<S, A>, index: nat): (e: Entry<S, A>)
    ensures e.Failed? <==> r.error.Some? || (r.aggregations.None? && !HasHits(r))
    ensures e.Failed? ==> e.index == index
    ensures e.Failed? ==> (e.reason.EmptyResponse? <==> r.error.None?)
    ensures e.Failed? && r.error.Some? ==> e.reason == ErrorType(r.error.value.errorType)
    ensures e.Aggregations? ==> r.error.None? && r.aggregations == Some(e.aggregations)
    ensures e.FirstSource? ==> r.error.None? && r.aggregations.None? && HasHits(r)
    ensures e.FirstSource? ==> e.source == r.hits.value.hits[0].source
  {
    match r.error
    case Some(err) => Failed(ErrorType(err.errorType), index)
    case None =>
      match r.aggregations
      case Some(aggregations) => Aggregations(aggregations)
      case None =>
        if HasHits(r) then FirstSource(r.hits.value.hits[0].source) else Failed(EmptyResponse, index)
  }

  /** Reshapes the sub-responses of a multi-search, one entry per sub-response and in the same
      order; an absent list of responses is passed back as it is. */
  method MapMultiSearch<S, A>(responses: Option<seq<SearchResponse<S, A>>>) returns (r: Option<seq<Entry<S, A>>>)
    ensures r.None? <==> responses.None?
    ensures r.Some? ==> |r.value| == |responses.value|
    ensures r.Some? ==> forall i :: 0 <= i < |r.value| ==> r.value[i] == Classify(responses.value[i], i)
    ensures r.Some? ==> forall i :: 0 <= i < |r.value| && r.value[i].Failed? ==> r.value[i].index == i
  {
    if responses.None? {
      return None;
    }
    var all := responses.value;
    var sources: seq<Entry<S, A>> := [];
    // `index` is both the loop position and the counter the entries record
    var index := 0;
    while index < |all|
      invariant index <= |all| && |sources| == index
      invariant forall i :: 0 <= i < index ==> sources[i] == Classify(all[i], i)
    {
      var response := all[index];
      if response.error.Some? {
        sources := sources + [Failed(ErrorType(response.error.value.errorType), index)];
      } else if response.aggregations.Some? {
        sources := sources + [Aggregations(response.aggregations.value)];
      } else if response.hits.Some? && |response.hits.value.hits| > 0 {
        sources := sources + [FirstSource(response.hits.value.hits[0].source)];
      } else {
        sources := sources + [Failed(EmptyResponse, index)];
      }
      index := index + 1;
    }
    return Some(sources);
  }

  /** The stored documents of `hits`, in order. */
  function Sources<S>(hits: seq<Hit<S>>): (docs: seq<S>)
    ensures |docs| == |hits|
    ensures forall i :: 0 <= i < |hits| ==> docs[i] == hits[i].source
  {
    if hits == [] then [] else [hits[0].source] + Sources(hits[1..])
  }

  /** Projects each hit to its stored document; an absent list of hits is passed back as it is. */
  function MapAllHits<S>(hits: Option<seq<Hit<S>>>): (docs: Option<seq<S>>)
    ensures docs.None? <==> hits.None?
    ensures docs.Some? ==> |docs.value| == |hits.value|
    ensures docs.Some? ==> forall i :: 0 <= i < |hits.value| ==> docs.value[i] == hits.value[i].source
  {
    if hits.None? then None else Some(Sources(hits.value))
  }

  /** The summary a search returns to its caller. */
  datatype Summary<+S, +A> = Summary(
    aggregations: Option<A>,
    total: Option<int>,
    took: Option<int>,
    hits: Option<seq<S>>)

  /** Reading `hits.total` of a response without `hits` throws a TypeError. */
  datatype FormatError = MissingHits

  /** Summarises a search response: aggregations, total and time taken are copied as they are,
      and the hits are replaced by their stored documents. */
  function FormatResponse<S, A>(response: SearchResponse<S, A>): (r: Result<Summary<S, A>, FormatError>)
    ensures r.Failure? <==> response.hits.None?
    ensures r.Success? ==> r.value.aggregations == response.aggregations
    ensures r.Success? ==> r.value.total == response.hits.value.total
    ensures r.Success? ==> r.value.took == response.took
    ensures r.Success? ==> r.value.hits.Some? && |r.value.hits.value| == |response.hits.value.hits|
    ensures r.Success? ==> forall i :: 0 <= i < |response.hits.value.hits| ==>
      r.value.hits.value[i] == response.hits.value.hits[i].source
  {
    match response.hits
    case None => Failure(MissingHits)
    case Some(block) =>
      Success(Summary(response.aggregations, block.total, response.took, MapAllHits(Some(block.hits))))
  }
}
